# pylinq lobby core in Dafny

pylinq is a small party game ("spy" word game) served over WebSockets. Its logic
lives in three sequential, in-memory components, and this project models each of
them as imperative Dafny and proves what the code promises:

- **Player** (`player.dfy`, module `Players`): a class with a validated name, an
  initial score of 3, a role (`IS_SPY` or `IS_COUNTER_SPY`), at most two picked
  words and, for a spy only, a secret word. The name check of the constructor and
  the two checks of `add_word` are pure functions (`NameRejection`,
  `WordRejection`). The methods are specified against them.
- **Observable** (`observable.dfy`, module `Observables`): a class whose field
  `events` maps each declared event name to its bound handlers and their extra
  arguments. Handlers are opaque identities with a `callable` flag. `Trigger` is
  a loop that returns the invocations it makes. It is proved to invoke every
  bound handler exactly once with the trigger's arguments followed by the
  handler's own, and no other handler.
- **Game** (`game.dfy`, module `Games`): a class holding the players by name, the
  master player and the started flag, plus its own event registry `hub`. The
  Python class inherits from `Observable`; the model composes one instead. A
  ghost log `emitted` records every event the game triggers, together with the
  players map, the started flag and each player's role and words at that moment. Role
  assignment deals a shuffled list of `n - 2` counter-spy markers plus two spy
  markers, in dictionary order. The shuffle is an arbitrary permutation and the
  order an arbitrary enumeration of the names; both are parameters.
  `SpyCountForEveryShuffle`, `DealtRoleCounts` and `RoleCounts` prove there are
  exactly two spies and `n - 2` counter-spies whatever the permutation. `abort`
  triggers `'game_aborted'` before it cleans up (game.py:75-76), so that emission
  carries the players that were present. game.py keeps no round counter.
- `wrappers.dfy` (module `Wrappers`) holds `Option`, `Result` and `Outcome`,
  which model `None`, exceptions and exception-free calls. It also holds the
  duplicate-free sequence predicate with its cardinality lemma.

Every raised exception is a value: `PlayerException`, `GameException` and
`ObservableException` (`UnsupportedEvent`, `HandlerMustBeCallable`) are kept
apart. `GameError` wraps what a game operation can raise: its own exception, a
propagated player exception, or the `KeyError` of an unknown player name.

Where other files of the repository suggest a different behaviour, the model
follows src/pylinq/game.py:

- `clean_up` (src/pylinq/game.py:78-80) keeps `master_player`, so `Abort` ensures
  the master is unchanged. The master promotion checked in src/tests/game.py:123-129
  belongs to a `remove_player` that game.py does not have. After an abort the
  master is a player no longer in `players`, later joiners never become master
  (game.py:44), and `start` succeeds only with the old master's name (game.py:61).
  The model reproduces this: `Games.Game.Valid` allows a master outside `players`.
- The start event is the `'started'` that game.py:23 declares and game.py:67
  triggers, not `Events.GAME_STARTED = 'game_started'` of src/pylinq/event.py:5.
- game.py triggers no `Events.PLAYER_ROLE_ASSIGNED` (src/pylinq/event.py:11) while
  dealing roles.

## Model

| member | source | states |
|---|---|---|
| Players.NameRejection | src/pylinq/player.py:14-19 | A name is accepted exactly when it has 1 to 12 characters. The empty name gives the empty-name error and is checked first. A longer name gives the too-long error carrying its length. |
| Players.WordRejection | src/pylinq/player.py:32-46 | A word is accepted exactly when it is not the player's secret word and fewer than two words are recorded. The secret-word rejection takes precedence. The two-word rejection quotes the two recorded words. |
| Players.Player.constructor | src/pylinq/player.py:21-26 | A new player has the given name, score 3, no role, no words and no secret word, and satisfies the player invariant. |
| Players.NewPlayer | src/pylinq/player.py:13-26 | `Player(name)` raises exactly when `NameRejection` rejects the name, with that error. Otherwise it yields a fresh valid player in the initial state. |
| Players.Player.AddWord | src/pylinq/player.py:31-48 | A rejected word raises that `PlayerException` and leaves `words` unchanged. An accepted word is appended at the end. Only `words` can change, and the invariant (at most two words) is kept. |
| Players.Player.GetWords | src/pylinq/player.py:50-51 | Returns the recorded words, of which there are never more than two. |
| Players.Player.IsSpy | src/pylinq/player.py:61-62 | For a valid player, being a spy is the same as holding a secret word. |
| Players.Player.MakeSpy | src/pylinq/player.py:53-55 | The role becomes `IS_SPY` and the secret word the given one. `IsSpy()` holds afterwards. Only role and secret word change. |
| Players.Player.MakeCounterSpy | src/pylinq/player.py:57-62 | The role becomes `IS_COUNTER_SPY` and the secret word is cleared. `IsSpy()` is false afterwards. |
| Observables.MustHaveEvent | src/pylinq/utils/observable.py:9-15 | The guard passes exactly when the event is declared. Otherwise it raises `UnsupportedEvent` naming the event. |
| Observables.Observable.constructor | src/pylinq/utils/observable.py:19-20 | A new registry declares no event. |
| Observables.Observable.HasEvent | src/pylinq/utils/observable.py:25-26 | An event is declared exactly when the `must_have_event` guard lets it through. |
| Observables.Observable.GetEvents | src/pylinq/utils/observable.py:28-29 | The declared events are exactly those `has_event` answers true for. |
| Observables.Observable.AddEvents | src/pylinq/utils/observable.py:22-29 | The declared events become exactly the given names, each with no handler. `has_event` and `get_events` answer accordingly, and earlier bindings are gone. |
| Observables.Observable.Bind | src/pylinq/utils/observable.py:31-36 | An undeclared event raises `UnsupportedEvent`, then a non-callable handler raises `HandlerMustBeCallable`. Either failure changes nothing. Otherwise only that event's map changes, and the handler maps to the extra arguments (last binding wins). |
| Observables.Observable.Unbind | src/pylinq/utils/observable.py:38-43 | An undeclared event raises and changes nothing. Without a handler, the event's handlers are cleared. With one, only that handler is removed, and an unbound handler changes nothing. Other events are untouched. |
| Observables.BindThenUnbindRestores | src/pylinq/utils/observable.py:36-43 | Binding a handler not yet bound and then unbinding it restores the registry. |
| Observables.Observable.Trigger | src/pylinq/utils/observable.py:45-50 | An undeclared event raises `UnsupportedEvent`. Otherwise each bound handler is invoked exactly once with the trigger's arguments followed by its extra arguments, and no other handler is invoked. The registry is not changed. |
| Observables.InvokesEachOnceCount | src/pylinq/utils/observable.py:47-50 | A trigger makes one call per bound handler, and its calls as a set are exactly the invocations the bindings determine. |
| Observables.InvokedOnceIffBound | src/pylinq/utils/observable.py:47-50 | The number of calls a trigger makes to a handler is 1 if the handler is bound to the event, and 0 otherwise. |
| Games.Game.constructor | src/pylinq/game.py:17-31 | A new game has no players, no master, is not started and has emitted nothing. Exactly the eight game events are declared, none with a handler. |
| Games.Game.AddPlayer | src/pylinq/game.py:33-49 | The checks run in the order started, full (8 players), name in use, invalid name. Each failure raises its error and changes neither players, master nor log. On success a fresh player in the initial state is added under the name, the master is set only if there was none, `'new_player'` is emitted with that player, and the player is returned. |
| Games.Game.GetPlayerCount | src/pylinq/game.py:51-52 | The count is the number of players and never exceeds eight. |
| Games.Game.Start | src/pylinq/game.py:54-67 | Fails, in this order, when already started, with fewer than four players, or when the name is not the master's. Each failure changes nothing. On success the game is started, the i-th player in dictionary order holds the role of the i-th shuffled marker (spies with the secret word), there are exactly two spies and n - 2 counter-spies, and `'started'` is emitted with the started flag set. |
| Games.Game.BeginRound | src/pylinq/game.py:64-67 | Sets the started flag, deals the roles, then emits `'started'`: the log entry carries the started flag and the roles as dealt, so the emission comes after the dealing. Players and master are unchanged, and the dealt roles and their counts hold. |
| Games.Game.AssignPlayerRoles | src/pylinq/game.py:82-91 | Every player, in the given enumeration of the player names, holds the role of the marker at its position: a spy with the secret word, otherwise a counter-spy with none. Only roles and secret words change, and each player stays valid. |
| Games.Game.DealInOrder | src/pylinq/game.py:86-91 | The loop deals the i-th marker to the i-th listed player and keeps every player valid. |
| Games.Game.RoleCounts | src/pylinq/game.py:83-91 | Once the roles follow a shuffle of the markers, exactly two players are spies and the other n - 2 counter-spies, and no player lacks a role. |
| Games.RoleMarkers | src/pylinq/game.py:83 | The marker list has n entries for n >= 2 players (two otherwise), of which exactly two are spy markers and the rest counter-spy markers. |
| Games.Repeat | src/pylinq/game.py:83 | `'?' * k` as a marker list: k entries, all equal to the given marker. |
| Games.NamesDealtCount | src/pylinq/game.py:86-91 | With distinct names, the number of names dealt a marker equals the number of times that marker occurs among the dealt markers. |
| Games.SpyCountForEveryShuffle | src/pylinq/game.py:83-91 | For every permutation of the markers and every duplicate-free order of n names, exactly two names are dealt a spy marker and n - 2 a counter-spy marker (n >= 2); with fewer names every name is dealt a spy marker. |
| Games.DealtRoleCounts | src/pylinq/game.py:83-91 | Roles dealt from a shuffle of the markers in any enumeration give two spies and n - 2 counter-spies, and every name has a role. |
| Games.EnumerationLength | src/pylinq/game.py:86 | An enumeration of the player names has exactly as many entries as there are players. |
| Games.Game.PlayerPicksWord | src/pylinq/game.py:69-72 | An unknown name raises `KeyError` and emits nothing. Otherwise the named player's `add_word` decides, against the words and secret word the player had: a spy's own secret word or a third word propagates its `PlayerException` with no emission and no change. An accepted word is appended and then `'player_picked_word'` is emitted with the player and the word; the log entry shows the words with the new one appended. Only that player's words can change, so its role, secret word and score stay as they were. |
| Games.Game.Emit | src/pylinq/game.py:47 | Appends one log entry for a declared game event, with the players map, the started flag and each player's role and words of that moment. |
| Games.Game.Abort | src/pylinq/game.py:74-76 | Emits `'game_aborted'` with the players, started flag, roles and words as they were, then leaves no players and the game not started. The master player is kept. |
| Games.Game.CleanUp | src/pylinq/game.py:78-80 | Leaves no players and the game not started. The master player is not touched. |
| Games.Game.GetPlayerStandings | src/pylinq/game.py:93-94 | Maps exactly the current players' names, each to that player's score. |
| Games.AsWrittenTypeErrorAt | src/pylinq/game.py:86-91 | The loop as written raises at the first index holding a spy marker and completes only when no dealt marker is a spy marker. |
| Games.AsWrittenAssignmentAlwaysRaises | src/pylinq/game.py:83-91 | As written, role assignment raises for every shuffle once there is at least one player. With n >= 2 players it raises after dealing at most n - 2 counter-spy roles, because a second spy marker always follows the first. |
| Wrappers.DistinctCard | src/pylinq/game.py:86 | A duplicate-free sequence has as many elements as its set of elements. The lemma is used to count the enumerated player names. |
| Observables.DistinctHandlersCard | src/pylinq/utils/observable.py:48 | Invocations of pairwise different handlers are as many as the distinct handlers they call. The lemma backs the per-handler count. |

## Left out

- src/pylinq/http.py (Tornado request and WebSocket handlers), static/js/pylinq.js (browser glue) and src/settings.py are not part of this model. src/pylinq/event.py only declares names that game.py does not use.
- The newer API that only src/tests/game.py exercises (`GameState`, `remove_player`, master promotion, list-valued standings) does not exist in src/pylinq/game.py and is not modelled.
- Handlers are not executed. `Trigger` returns the invocations it would make. A handler that raises and stops the others, and a handler that re-enters the game, are not modelled.
- Games.Game.Emit: the log entry records which game event was triggered and with which arguments, not which handlers received it. `Observables.Observable.Trigger` states which handlers are invoked, and the game's calls are not carried into the log.
- The order in which `trigger` calls handlers is the unspecified dict order. `InvokesEachOnce` fixes no order, and the lemmas state the calls as a set and as counts.
- `random.shuffle` is replaced by the `shuffled` parameter, which may be any permutation of the marker list. The iteration order of the players dictionary is the `order` parameter, which may be any duplicate-free enumeration of the names.
- Python's `is` comparisons of ints and strings (game.py:36, 88; player.py:14, 39, 62) are modelled as value equality. At player.py:14 this reading differs for Python 2 `unicode` names: `u'' is ''` is False, so the source lets an empty `unicode` name through (as http.py:45-46 would pass for `player_name=`), while `NameRejection` refuses every empty name.
- `get_events` returns the key set, not a Python 2 key list.
- `Player.__repr__` is left out (formatting only), and so are the messages of the exceptions, which only format the data each error value carries.
- Games.Game.Valid assumes that the game's own events stay declared on its registry. In the source, re-declaring events through the inherited `add_events` would make the next trigger raise `UnsupportedEventException` after the state was already changed. That path is not modelled.
- Games.Game.Start: does not restate in its own contract that scores and words are unchanged. Its field-granular `modifies` clause only allows roles and secret words of players to change, so this follows from the frame.
- Games.Game.AssignPlayerRoles: takes the secret word as a parameter, because `make_spy` in player.py requires one (see Findings).
- Players.NameRejection: `|name|` counts Dafny characters. Python 2 `len` counts bytes for a `str` and UTF-16 or UTF-32 code units for a `unicode` name, so the 12-character bound is modelled on a sequence of characters, not on either encoding.
- Players.Player.GetWords: returns the words as a value. The source returns its own list, which a caller could change behind the player's back; that aliasing is not modelled.
- `len(self.players)` is compared with `is` against `MAX_PLAYER_COUNT`. More than eight players cannot arise, because the game invariant bounds the count.

## Findings

| source | as written | input that shows it | evidently intended | confidence | as-written member | corrected member |
|---|---|---|---|---|---|---|
| src/pylinq/game.py:89 | `player.make_spy()` is called with no argument, while `make_spy` at src/pylinq/player.py:53 requires `secret_word`, so the first spy marker raises `TypeError`. By then game.py:64 has set `started`, the players before that index already hold counter-spy roles, and `'started'` is never triggered, so every later `add_player` and `start` fails with the already-started error until `abort` | any `start` by the master with four players: the shuffled markers always contain two spy markers | pass the round's secret word, so the spies get it | high (type mismatch in the code); not executed | Games.AsWrittenTypeErrorAt, Games.AsWrittenAssignmentAlwaysRaises | Games.Game.AssignPlayerRoles, Games.Game.Start |
