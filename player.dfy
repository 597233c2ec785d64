/** The player entity of a lobby (src/pylinq/player.py): a validated name, a score,
    a role, the words the player has picked and, for a spy, the secret word. */
module Players {
  import opened Wrappers

  const IS_SPY: int := 0
  const IS_COUNTER_SPY: int := 1
  const MAX_PLAYER_NAME_LENGTH: nat := 12
  /** The score every new player starts with. */
  const INITIAL_SCORE: int := 3
  /** The number of words after which `add_word` refuses another one. */
  const MAX_WORDS: nat := 2

  /** Why a `PlayerException` was raised, with the data its message quotes. */
  datatype PlayerException =
    | EmptyName
    | NameTooLong(length: nat)
    | PickedOwnSecretWord(player: string, secret: string)
    | AlreadyPickedTwoWords(player: string, first: string, second: string)

  /** The check the constructor makes of a name: empty first, then too long. */
  function NameRejection(name: string): (r: Option<PlayerException>)
    ensures r.None? <==> 0 < |name| <= MAX_PLAYER_NAME_LENGTH
    ensures name == "" ==> r == Some(EmptyName)
    ensures name != "" && r.Some? ==> r == Some(NameTooLong(|name|)) && |name| > MAX_PLAYER_NAME_LENGTH
  {
    if name == "" then Some(EmptyName)
    else if |name| > MAX_PLAYER_NAME_LENGTH then Some(NameTooLong(|name|))
    else None
  }

  /** The checks `add_word` makes before it appends `word`: the player's own secret
      word is refused first, then a third word. */
  function WordRejection(name: string, words: seq<string>, secret: Option<string>, word: string)
    : (r: Option<PlayerException>)
    requires |words| <= MAX_WORDS
    ensures r.None? <==> secret != Some(word) && |words| < MAX_WORDS
    ensures secret == Some(word) ==> r == Some(PickedOwnSecretWord(name, word))
    ensures secret != Some(word) && |words| == MAX_WORDS ==>
              r == Some(AlreadyPickedTwoWords(name, words[0], words[1]))
  {
    if secret.Some? && word == secret.value then Some(PickedOwnSecretWord(name, secret.value))
    else if |words| == MAX_WORDS then Some(AlreadyPickedTwoWords(name, words[0], words[1]))
    else None
  }

  class Player {
    const name: string
    var score: int
    var role: Option<int>
    var words: seq<string>
    var secretWord: Option<string>

    /** The player invariant: a valid name, at most two words, a role that is one of
        the two constants, and a secret word exactly when the player is a spy. */
    ghost predicate Valid()
      reads this
    {
      && NameRejection(name).None?
      && |words| <= MAX_WORDS
      && (role.None? || role.value == IS_SPY || role.value == IS_COUNTER_SPY)
      && (secretWord.Some? <==> role == Some(IS_SPY))
    }

    /** The part of `__init__` after the name check. */
    constructor (name: string)
      requires NameRejection(name).None?
      ensures Valid()
      ensures this.name == name && score == INITIAL_SCORE && role.None?
      ensures words == [] && secretWord.None?
    {
      this.name := name;
      score := INITIAL_SCORE;
      role := None;
      words := [];
      secretWord := None;
    }

    /** Records `word`, unless it is the player's own secret word or two words are
        already recorded; nothing but `words` can change. */
    method AddWord(word: string) returns (r: Outcome<PlayerException>)
      requires Valid()
      modifies this`words
      ensures Valid()
      ensures var rejected := WordRejection(name, old(words), secretWord, word);
              && (rejected.Some? ==> r == Fail(rejected.value) && words == old(words))
              && (rejected.None? ==> r == Pass && words == old(words) + [word])
    {
      if secretWord.Some? && word == secretWord.value {
        return Fail(PickedOwnSecretWord(name, secretWord.value));
      }
      if |words| == MAX_WORDS {
        return Fail(AlreadyPickedTwoWords(name, words[0], words[1]));
      }
      words := words + [word];
      r := Pass;
    }

    /** The words picked so far, never more than two. */
    function GetWords(): (r: seq<string>)
      reads this
      requires Valid()
      ensures |r| <= MAX_WORDS
      ensures r == words
    {
      words
    }

    /** For a valid player, being a spy is the same as holding a secret word. */
    function IsSpy(): (r: bool)
      reads this
      ensures Valid() ==> (r <==> secretWord.Some?)
    {
      role == Some(IS_SPY)
    }

    /** Makes the player a spy whose secret word is `secret`. */
    method MakeSpy(secret: string)
      requires Valid()
      modifies this`role, this`secretWord
      ensures Valid() && IsSpy()
      ensures role == Some(IS_SPY) && secretWord == Some(secret)
    {
      role := Some(IS_SPY);
      secretWord := Some(secret);
    }

    /** Makes the player a counter-spy, who has no secret word. */
    method MakeCounterSpy()
      requires Valid()
      modifies this`role, this`secretWord
      ensures Valid() && !IsSpy()
      ensures role == Some(IS_COUNTER_SPY) && secretWord.None?
    {
      role := Some(IS_COUNTER_SPY);
      secretWord := None;
    }
  }

  /** `Player(name)`: raises `PlayerException` for an empty name or one longer than
      twelve characters, and otherwise yields a fresh player with that name. */
  method NewPlayer(name: string) returns (r: Result<Player, PlayerException>)
    ensures r.Failure? <==> NameRejection(name).Some?
    ensures r.Failure? ==> r.error == NameRejection(name).value
    ensures r.Success? ==> && fresh(r.value) && r.value.Valid() && r.value.name == name
                           && r.value.score == INITIAL_SCORE && r.value.role.None?
                           && r.value.words == [] && r.value.secretWord.None?
  {
    var rejected := NameRejection(name);
    if rejected.Some? {
      return Failure(rejected.value);
    }
    var p := new Player(name);
    r := Success(p);
  }
}
