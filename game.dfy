/** The game lobby engine of src/pylinq/game.py: the players by name, the master
    player, the started flag, role assignment, and the events it triggers on its
    own registry. */
module Games {
  import opened Wrappers
  import opened Players
  import opened Observables

  const MIN_PLAYER_COUNT: nat := 4
  const MAX_PLAYER_COUNT: nat := 8
  const SPIES_COUNT: nat := 2

  const STARTED: string := "started"
  const GAME_ABORTED: string := "game_aborted"
  const NEW_PLAYER: string := "new_player"
  const PLAYER_PICKED_WORD: string := "player_picked_word"

  /** The events a game declares when it is constructed. */
  const GAME_EVENTS: seq<string> :=
    [STARTED, "game_finished", GAME_ABORTED, NEW_PLAYER, "new_round",
     PLAYER_PICKED_WORD, "player_picked_spy", "round_resolved"]

  /** The events the game triggers are among `declared`. */
  predicate EventsDeclared(declared: set<string>)
  {
    STARTED in declared && GAME_ABORTED in declared && NEW_PLAYER in declared && PLAYER_PICKED_WORD in declared
  }

  /** Why a `GameException` was raised, with the data its message quotes. */
  datatype GameException =
    | AlreadyStarted
    | MaxPlayerCount(max: nat)
    | NameInUse(name: string)
    | MinPlayerCount(min: nat)
    | NotMaster(master: string)

  /** What a game operation can raise: its own exception, one propagated from the
      player, or the `KeyError` of looking up an unknown player name. */
  datatype GameError = GameErr(game: GameException) | PlayerErr(player: PlayerException) | KeyError(key: string)

  /** The arguments the game passes to its handlers. */
  datatype Payload = PlayerArg(player: Player) | WordArg(word: string)

  /** One `trigger` call of the game, with what its handlers see at that moment:
      the players, the started flag, and each player's role and words. */
  datatype Emission = Emission(event: string, args: seq<Payload>, seenPlayers: map<string, Player>, seenStarted: bool,
                               seenRoles: map<string, Option<int>>, seenWords: map<string, seq<string>>)

  // ---------------------------------------------------------------------------
  // Role markers: the list that `assign_player_roles` shuffles and deals out.

  /** A counter-spy marker ('?') or a spy marker ('S'). */
  datatype Marker = CounterSpyMarker | SpyMarker

  function Repeat(m: Marker, k: nat): (r: seq<Marker>)
    ensures |r| == k
    ensures multiset(r)[m] == k
    ensures forall x :: x != m ==> multiset(r)[x] == 0
  {
    if k == 0 then [] else Repeat(m, k - 1) + [m]
  }

  /** `list('?' * (n - SPIES_COUNT) + 'SS')`: Python repeats a string a negative
      number of times as the empty string, so fewer than two players still get a
      list of two spy markers. */
  function RoleMarkers(n: nat): (r: seq<Marker>)
    ensures |r| == if n >= SPIES_COUNT then n else SPIES_COUNT
    ensures multiset(r)[SpyMarker] == SPIES_COUNT
    ensures multiset(r)[CounterSpyMarker] == |r| - SPIES_COUNT
  {
    Repeat(CounterSpyMarker, if n >= SPIES_COUNT then n - SPIES_COUNT else 0) + [SpyMarker, SpyMarker]
  }

  /** The names, among the first `k` of `order`, that are dealt marker `m`. */
  ghost function NamesDealt(order: seq<string>, shuffled: seq<Marker>, m: Marker, k: nat): set<string>
    requires k <= |order| && k <= |shuffled|
  {
    set i | 0 <= i < k && shuffled[i] == m :: order[i]
  }

  lemma {:induction false} NamesDealtCount(order: seq<string>, shuffled: seq<Marker>, m: Marker, k: nat)
    requires k <= |order| && k <= |shuffled| && Distinct(order)
    ensures |NamesDealt(order, shuffled, m, k)| == multiset(shuffled[..k])[m]
  {
    if k == 0 {
      assert NamesDealt(order, shuffled, m, k) == {};
    } else {
      NamesDealtCount(order, shuffled, m, k - 1);
      assert shuffled[..k] == shuffled[..k - 1] + [shuffled[k - 1]];
      var before := NamesDealt(order, shuffled, m, k - 1);
      assert order[k - 1] !in before;
      if shuffled[k - 1] == m {
        assert NamesDealt(order, shuffled, m, k) == before + {order[k - 1]};
      } else {
        assert NamesDealt(order, shuffled, m, k) == before;
      }
    }
  }

  /** Whatever permutation `shuffle` produces, dealing it out to `n` players in any
      order makes exactly two of them spies and the other n - 2 counter-spies when
      n >= 2; with fewer players every player is a spy. */
  lemma {:induction false} SpyCountForEveryShuffle(order: seq<string>, shuffled: seq<Marker>)
    requires Distinct(order)
    requires multiset(shuffled) == multiset(RoleMarkers(|order|))
    ensures |order| <= |shuffled|
    ensures |NamesDealt(order, shuffled, SpyMarker, |order|)| ==
              if |order| >= SPIES_COUNT then SPIES_COUNT else |order|
    ensures |order| >= SPIES_COUNT ==>
              |NamesDealt(order, shuffled, CounterSpyMarker, |order|)| == |order| - SPIES_COUNT
  {
    var n := |order|;
    assert |shuffled| == |multiset(shuffled)| == |RoleMarkers(n)|;
    NamesDealtCount(order, shuffled, SpyMarker, n);
    NamesDealtCount(order, shuffled, CounterSpyMarker, n);
    if n >= SPIES_COUNT {
      assert shuffled[..n] == shuffled;
    } else if n == 1 {
      assert shuffled[0] in multiset(shuffled);
      assert shuffled[..1] == [shuffled[0]];
    } else {
      assert shuffled[..0] == [];
    }
  }

  // ---------------------------------------------------------------------------
  // Role assignment as written: game.py calls `make_spy()` without the secret word
  // that player.py requires, so the loop raises TypeError on its first spy marker.

  /** The index at which the loop of `assign_player_roles` as written raises
      TypeError for `n` players, or None when it completes. */
  function AsWrittenTypeErrorAt(shuffled: seq<Marker>, n: nat): (r: Option<nat>)
    requires n <= |shuffled|
    ensures r.Some? ==> r.value < n && shuffled[r.value] == SpyMarker
    ensures r.Some? ==> forall j :: 0 <= j < r.value ==> shuffled[j] != SpyMarker
    ensures r.None? ==> forall j :: 0 <= j < n ==> shuffled[j] != SpyMarker
  {
    if n == 0 then None
    else match AsWrittenTypeErrorAt(shuffled, n - 1)
      case Some(i) => Some(i)
      case None => if shuffled[n - 1] == SpyMarker then Some(n - 1) else None
  }

  /** As written, role assignment raises for every shuffle once there is a player,
      so `start` with its four players or more never completes; with n >= 2 players
      it raises having dealt at most n - 2 counter-spy roles. */
  lemma {:induction false} AsWrittenAssignmentAlwaysRaises(shuffled: seq<Marker>, n: nat)
    requires n >= 1
    requires multiset(shuffled) == multiset(RoleMarkers(n))
    ensures n <= |shuffled|
    ensures AsWrittenTypeErrorAt(shuffled, n).Some?
    ensures n >= SPIES_COUNT ==> AsWrittenTypeErrorAt(shuffled, n).value <= n - SPIES_COUNT
  {
    assert |shuffled| == |multiset(shuffled)| == |RoleMarkers(n)|;
    if n >= SPIES_COUNT {
      assert SpyMarker in multiset(shuffled);
      var j :| 0 <= j < |shuffled| && shuffled[j] == SpyMarker;
      var k := AsWrittenTypeErrorAt(shuffled, n).value;
      assert shuffled == shuffled[..k] + [shuffled[k]] + shuffled[k + 1..];
      assert SpyMarker !in shuffled[..k];
      assert multiset(shuffled[k + 1..])[SpyMarker] == 1;
      var second :| second in shuffled[k + 1..] && second == SpyMarker;
    } else {
      assert shuffled[0] in multiset(shuffled);
    }
  }

  // ---------------------------------------------------------------------------

  /** `order` lists every key of `keys` exactly once: the iteration order of the
      players dictionary. */
  ghost predicate EnumeratesKeys(order: seq<string>, keys: set<string>)
  {
    && Distinct(order)
    && (forall i :: 0 <= i < |order| ==> order[i] in keys)
    && (forall n :: n in keys ==> n in order)
  }

  lemma EnumerationLength(order: seq<string>, keys: set<string>)
    requires EnumeratesKeys(order, keys)
    ensures |order| == |keys|
  {
    DistinctCard(order);
    assert (set x | x in order) == keys;
  }

  /** The role constant a marker deals. */
  function RoleOf(m: Marker): int
  {
    if m == SpyMarker then IS_SPY else IS_COUNTER_SPY
  }

  ghost function WithRole(roles: map<string, Option<int>>, role: int): set<string>
  {
    set n | n in roles && roles[n] == Some(role)
  }

  /** Dealing a shuffle of the role markers to every player, in any iteration
      order, leaves two spies and n - 2 counter-spies (n >= 2), and no player
      without a role. */
  lemma DealtRoleCounts(order: seq<string>, shuffled: seq<Marker>, roles: map<string, Option<int>>)
    requires EnumeratesKeys(order, roles.Keys)
    requires multiset(shuffled) == multiset(RoleMarkers(|roles|))
    requires |order| <= |shuffled|
    requires forall i :: 0 <= i < |order| ==> roles[order[i]] == Some(RoleOf(shuffled[i]))
    ensures |WithRole(roles, IS_SPY)| == if |roles| >= SPIES_COUNT then SPIES_COUNT else |roles|
    ensures |roles| >= SPIES_COUNT ==> |WithRole(roles, IS_COUNTER_SPY)| == |roles| - SPIES_COUNT
    ensures forall n :: n in roles ==> roles[n].Some?
  {
    EnumerationLength(order, roles.Keys);
    SpyCountForEveryShuffle(order, shuffled);
    forall n | n in roles
      ensures n in WithRole(roles, IS_SPY) <==> n in NamesDealt(order, shuffled, SpyMarker, |order|)
      ensures n in WithRole(roles, IS_COUNTER_SPY) <==> n in NamesDealt(order, shuffled, CounterSpyMarker, |order|)
      ensures roles[n].Some?
    {
      var j :| 0 <= j < |order| && order[j] == n;
    }
    assert WithRole(roles, IS_SPY) == NamesDealt(order, shuffled, SpyMarker, |order|);
    assert WithRole(roles, IS_COUNTER_SPY) == NamesDealt(order, shuffled, CounterSpyMarker, |order|);
  }

  /** Player `p` holds the role that marker `m` deals, with `secret` for a spy. */
  ghost predicate Dealt(p: Player, m: Marker, secret: string)
    reads p
  {
    if m == SpyMarker then p.role == Some(IS_SPY) && p.secretWord == Some(secret)
    else p.role == Some(IS_COUNTER_SPY) && p.secretWord.None?
  }

  class Game {
    var players: map<string, Player>
    var masterPlayer: Player?
    var started: bool
    /** The registry the game triggers its events on (the game is its own
        observable in the source). */
    const hub: Observable<Payload>
    /** Every event the game has triggered, oldest first. */
    ghost var emitted: seq<Emission>

    /** The game invariant: every game event is declared, at most eight players,
        each stored under its own name, and a master exists once anyone joined
        (clean-up keeps the old master). */
    ghost predicate Valid()
      reads this`players, this`masterPlayer, hub, players.Values
    {
      && EventsDeclared(hub.events.Keys)
      && |players| <= MAX_PLAYER_COUNT
      && (forall n :: n in players ==> players[n].name == n && players[n].Valid())
      && (masterPlayer == null ==> players == map[])
    }

    /** Each player's role, under the player's name. */
    ghost function RoleView(): map<string, Option<int>>
      reads this`players, players.Values
    {
      map n | n in players :: players[n].role
    }

    /** Each player's recorded words, under the player's name. */
    ghost function WordsView(): map<string, seq<string>>
      reads this`players, players.Values
    {
      map n | n in players :: players[n].words
    }

    ghost function PlayersWithRole(role: int): set<string>
      reads this`players, players.Values
    {
      WithRole(RoleView(), role)
    }

    /** In `order`, the i-th player holds the role of the i-th shuffled marker. */
    ghost predicate RolesFollow(order: seq<string>, shuffled: seq<Marker>, secret: string)
      reads this`players, players.Values
    {
      forall i :: 0 <= i < |order| && i < |shuffled| ==> order[i] in players && Dealt(players[order[i]], shuffled[i], secret)
    }

    /** The counts role assignment guarantees: two spies and n - 2 counter-spies
        for n >= 2 players (all spies below that), and nobody without a role. */
    ghost predicate RoleCountsHold()
      reads this`players, players.Values
    {
      && |PlayersWithRole(IS_SPY)| == (if |players| >= SPIES_COUNT then SPIES_COUNT else |players|)
      && (|players| >= SPIES_COUNT ==> |PlayersWithRole(IS_COUNTER_SPY)| == |players| - SPIES_COUNT)
      && (forall n :: n in players ==> players[n].role.Some?)
    }

    constructor ()
      ensures Valid() && fresh(hub)
      ensures players == map[] && masterPlayer == null && !started && emitted == []
      ensures forall e :: hub.HasEvent(e) <==> e in GAME_EVENTS
      ensures forall e :: e in hub.events ==> hub.events[e] == map[]
    {
      players := map[];
      masterPlayer := null;
      started := false;
      var registry := new Observable<Payload>();
      registry.AddEvents(GAME_EVENTS);
      hub := registry;
      emitted := [];
    }

    /** `self.trigger(event, *args)` on one of the game's own events. */
    method Emit(event: string, args: seq<Payload>)
      requires event in hub.events
      modifies this`emitted
      ensures emitted == old(emitted) + [Emission(event, args, players, started, RoleView(), WordsView())]
    {
      var calls := hub.Trigger(event, args);
      emitted := emitted + [Emission(event, args, players, started, RoleView(), WordsView())];
    }

    /** Adds a player named `name`; the checks run in the order started, full,
        name in use, invalid name, and any failure changes nothing. */
    method AddPlayer(name: string) returns (r: Result<Player, GameError>)
      requires Valid()
      modifies this
      ensures Valid()
      ensures started == old(started)
      ensures old(started) ==> r == Failure(GameErr(AlreadyStarted))
      ensures !old(started) && |old(players)| == MAX_PLAYER_COUNT ==>
                r == Failure(GameErr(MaxPlayerCount(MAX_PLAYER_COUNT)))
      ensures !old(started) && |old(players)| < MAX_PLAYER_COUNT && name in old(players) ==>
                r == Failure(GameErr(NameInUse(name)))
      ensures !old(started) && |old(players)| < MAX_PLAYER_COUNT && name !in old(players) ==>
                (NameRejection(name).Some? <==> r.Failure?) &&
                (r.Failure? ==> r.error == PlayerErr(NameRejection(name).value))
      ensures r.Failure? ==> players == old(players) && masterPlayer == old(masterPlayer) && emitted == old(emitted)
      ensures r.Success? ==> && fresh(r.value) && r.value.name == name && r.value.score == INITIAL_SCORE
                             && r.value.role.None? && r.value.words == [] && r.value.secretWord.None?
                             && name !in old(players)
                             && players == old(players)[name := r.value]
                             && masterPlayer == (if old(masterPlayer) == null then r.value else old(masterPlayer))
                             && emitted == old(emitted) + [Emission(NEW_PLAYER, [PlayerArg(r.value)], players, false, RoleView(), WordsView())]
    {
      if started {
        return Failure(GameErr(AlreadyStarted));
      }
      if |players| == MAX_PLAYER_COUNT {
        return Failure(GameErr(MaxPlayerCount(MAX_PLAYER_COUNT)));
      }
      if name in players {
        return Failure(GameErr(NameInUse(name)));
      }
      var created := NewPlayer(name);
      if created.Failure? {
        return Failure(PlayerErr(created.error));
      }
      var p := created.value;
      players := players[name := p];
      if masterPlayer == null {
        masterPlayer := p;
      }
      Emit(NEW_PLAYER, [PlayerArg(p)]);
      r := Success(p);
    }

    /** The number of players, which never exceeds eight. */
    function GetPlayerCount(): (r: nat)
      reads this, hub, players.Values
      requires Valid()
      ensures r == |players| && r <= MAX_PLAYER_COUNT
    {
      |players.Keys|
    }

    /** Starts the game when it is not started, has at least four players and
        `name` is the master's; then every player is dealt the role of the
        shuffled marker at its position in `order` (spies get `secret`), and
        'started' is triggered. Any failure changes nothing. */
    method Start(name: string, secret: string, order: seq<string>, shuffled: seq<Marker>)
      returns (r: Outcome<GameError>)
      requires Valid()
      requires EnumeratesKeys(order, players.Keys)
      requires multiset(shuffled) == multiset(RoleMarkers(|players|))
      modifies this`started, this`emitted, players.Values`role, players.Values`secretWord
      ensures Valid()
      ensures players == old(players) && masterPlayer == old(masterPlayer)
      ensures old(started) ==> r == Fail(GameErr(AlreadyStarted))
      ensures !old(started) && |players| < MIN_PLAYER_COUNT ==> r == Fail(GameErr(MinPlayerCount(MIN_PLAYER_COUNT)))
      ensures !old(started) && |players| >= MIN_PLAYER_COUNT ==>
                masterPlayer != null && (r.Pass? <==> name == masterPlayer.name) &&
                (r.Fail? ==> r == Fail(GameErr(NotMaster(masterPlayer.name))))
      ensures r.Fail? ==> started == old(started) && emitted == old(emitted) && unchanged(players.Values)
      ensures r.Pass? ==> && started
                          && RolesFollow(order, shuffled, secret)
                          && RoleCountsHold()
                          && emitted == old(emitted) + [Emission(STARTED, [], players, true, RoleView(), WordsView())]
    {
      if started {
        return Fail(GameErr(AlreadyStarted));
      }
      if |players| < MIN_PLAYER_COUNT {
        return Fail(GameErr(MinPlayerCount(MIN_PLAYER_COUNT)));
      }
      if name != masterPlayer.name {
        return Fail(GameErr(NotMaster(masterPlayer.name)));
      }
      BeginRound(secret, order, shuffled);
      r := Pass;
    }

    /** What `start` does once its checks pass: set the started flag, deal the
        roles, then trigger 'started'. */
    method BeginRound(secret: string, order: seq<string>, shuffled: seq<Marker>)
      requires Valid()
      requires EnumeratesKeys(order, players.Keys)
      requires multiset(shuffled) == multiset(RoleMarkers(|players|))
      modifies this`started, this`emitted, players.Values`role, players.Values`secretWord
      ensures Valid()
      ensures players == old(players) && masterPlayer == old(masterPlayer)
      ensures started
      ensures RolesFollow(order, shuffled, secret)
      ensures RoleCountsHold()
      ensures emitted == old(emitted) + [Emission(STARTED, [], players, true, RoleView(), WordsView())]
    {
      started := true;
      AssignPlayerRoles(secret, order, shuffled);
      Emit(STARTED, []);
      RoleCounts(order, shuffled, secret);
    }

    /** Deals the shuffled markers to the players in `order`: a spy marker makes the
        player a spy with `secret`, any other a counter-spy. Nothing else about the
        players changes. */
    method AssignPlayerRoles(secret: string, order: seq<string>, shuffled: seq<Marker>)
      requires Valid()
      requires EnumeratesKeys(order, players.Keys)
      requires multiset(shuffled) == multiset(RoleMarkers(|players|))
      modifies players.Values`role, players.Values`secretWord
      ensures players == old(players) && masterPlayer == old(masterPlayer)
      ensures Valid()
      ensures RolesFollow(order, shuffled, secret)
    {
      EnumerationLength(order, players.Keys);
      assert |shuffled| == |multiset(shuffled)| == |RoleMarkers(|players|)|;
      DealInOrder(secret, order, shuffled);
      forall n | n in players
        ensures players[n].Valid()
      {
        var j :| 0 <= j < |order| && order[j] == n;
      }
    }

    /** The loop of `assign_player_roles`: the i-th player of `order` is dealt the
        i-th shuffled marker. */
    method DealInOrder(secret: string, order: seq<string>, shuffled: seq<Marker>)
      requires |order| <= |shuffled|
      requires forall i :: 0 <= i < |order| ==> order[i] in players && players[order[i]].name == order[i]
      requires forall i :: 0 <= i < |order| ==> players[order[i]].Valid()
      requires Distinct(order)
      modifies players.Values`role, players.Values`secretWord
      ensures forall i :: 0 <= i < |order| ==> players[order[i]].Valid()
      ensures forall i :: 0 <= i < |order| ==> Dealt(players[order[i]], shuffled[i], secret)
    {
      var i := 0;
      while i < |order|
        invariant 0 <= i <= |order|
        invariant forall j :: 0 <= j < |order| ==> players[order[j]].Valid()
        invariant forall j :: 0 <= j < i ==> Dealt(players[order[j]], shuffled[j], secret)
      {
        var p := players[order[i]];
        if shuffled[i] == SpyMarker {
          p.MakeSpy(secret);
        } else {
          p.MakeCounterSpy();
        }
        i := i + 1;
      }
    }

    /** Once every player holds the role dealt to it, two players are spies and
        the rest (n >= 2) counter-spies. */
    lemma RoleCounts(order: seq<string>, shuffled: seq<Marker>, secret: string)
      requires EnumeratesKeys(order, players.Keys)
      requires multiset(shuffled) == multiset(RoleMarkers(|players|))
      requires RolesFollow(order, shuffled, secret)
      ensures RoleCountsHold()
    {
      EnumerationLength(order, players.Keys);
      assert |shuffled| == |multiset(shuffled)| == |RoleMarkers(|players|)|;
      var view := RoleView();
      forall j | 0 <= j < |order|
        ensures view[order[j]] == Some(RoleOf(shuffled[j]))
      {
        assert order[j] in players;
        assert Dealt(players[order[j]], shuffled[j], secret);
        assert view[order[j]] == players[order[j]].role;
      }
      assert view.Keys == players.Keys;
      DealtRoleCounts(order, shuffled, view);
      assert PlayersWithRole(IS_SPY) == WithRole(view, IS_SPY);
      assert PlayersWithRole(IS_COUNTER_SPY) == WithRole(view, IS_COUNTER_SPY);
    }

    /** Records `word` for the named player through `add_word`; 'player_picked_word'
        is triggered only when the word was recorded. Only that player's words can
        change. */
    method PlayerPicksWord(name: string, word: string) returns (r: Outcome<GameError>)
      requires Valid()
      modifies this`emitted, (if name in players then {players[name]} else {})`words
      ensures Valid()
      ensures name !in players ==> r == Fail(KeyError(name)) && emitted == old(emitted)
      ensures name in players ==>
                var p := players[name];
                var rejected := WordRejection(name, old(p.words), old(p.secretWord), word);
                && (rejected.Some? ==> r == Fail(PlayerErr(rejected.value)) && p.words == old(p.words)
                                       && emitted == old(emitted))
                && (rejected.None? ==> r == Pass && p.words == old(p.words) + [word]
                                       && emitted == old(emitted) +
                                            [Emission(PLAYER_PICKED_WORD, [PlayerArg(p), WordArg(word)], players, started, RoleView(), WordsView())])
    {
      if name !in players {
        return Fail(KeyError(name));
      }
      var p := players[name];
      var added := p.AddWord(word);
      if added.Fail? {
        return Fail(PlayerErr(added.error));
      }
      Emit(PLAYER_PICKED_WORD, [PlayerArg(p), WordArg(word)]);
      r := Pass;
    }

    /** Triggers 'game_aborted' while the game is still as it was, then cleans up:
        no players and not started, the master being kept. */
    method Abort()
      requires Valid()
      modifies this
      ensures Valid()
      ensures players == map[] && !started && masterPlayer == old(masterPlayer)
      ensures emitted == old(emitted) + [Emission(GAME_ABORTED, [], old(players), old(started), old(RoleView()), old(WordsView()))]
    {
      Emit(GAME_ABORTED, []);
      CleanUp();
    }

    /** Forgets every player and the started flag; the master is not reset. */
    method CleanUp()
      requires Valid()
      modifies this`players, this`started
      ensures Valid()
      ensures players == map[] && !started
    {
      players := map[];
      started := false;
    }

    /** Each current player's score, under the player's name. */
    function GetPlayerStandings(): (r: map<string, int>)
      reads this, hub, players.Values
      requires Valid()
      ensures r.Keys == players.Keys
      ensures forall n :: n in players ==> r[n] == players[n].score
    {
      map p | p in players.Values :: p.name := p.score
    }
  }
}
