/**
 * town/games/Game.js: the base of every game.  It owns the id, the state and the list of
 * players; the subtype supplies the `_join` and `_leave` hooks whose effect on the state is
 * passed in here as a HookResult.
 */
module Games {
  import opened Wrappers
  import opened Errors
  import opened Models

  /** What a subtype hook did: the state it left behind and the error it threw, if any. */
  datatype HookResult<S> = HookResult(after: S, thrown: Option<Error>)

  /** The hook result of a subtype method that throws before it changes the state. */
  function HookOf<S>(r: Result<S, Error>, current: S): (h: HookResult<S>)
    ensures r.Success? ==> h == HookResult(r.value, None)
    ensures r.Failure? ==> h == HookResult(current, Some(r.error))
  {
    match r
    case Success(next) => HookResult(next, None)
    case Failure(e) => HookResult(current, Some(e))
  }

  /** `players.filter(p => p.id !== id)`: every entry for `id` goes, the rest keep their order. */
  function Without(players: seq<PlayerID>, id: PlayerID): (r: seq<PlayerID>)
    ensures forall q :: q in r <==> q in players && q != id
    ensures id !in players ==> r == players
    ensures |r| <= |players|
  {
    if players == [] then []
    else if players[0] == id then Without(players[1..], id)
    else [players[0]] + Without(players[1..], id)
  }

  /** Filtering a concatenation filters each part: the survivors stay in their old order. */
  lemma {:induction false} WithoutConcat(a: seq<PlayerID>, b: seq<PlayerID>, id: PlayerID)
    ensures Without(a + b, id) == Without(a, id) + Without(b, id)
  {
    if a == [] {
      assert a + b == b;
    } else {
      assert (a + b)[1..] == a[1..] + b;
      WithoutConcat(a[1..], b, id);
    }
  }

  class Game<S> {
    const id: GameID
    var state: S
    var players: seq<PlayerID>

    /** The id (drawn from nanoid in the source) is fixed here, and nobody has joined yet. */
    constructor(id: GameID, initialState: S)
      ensures this.id == id && state == initialState && players == []
    {
      this.id := id;
      state := initialState;
      players := [];
    }

    /** The `state` setter replaces the whole state; the getter is the field itself. */
    method SetState(newState: S)
      modifies this`state
      ensures state == newState
    {
      state := newState;
    }

    /** `join`: run the subtype's `_join`, and record the player only if it did not throw. */
    method Join(player: PlayerID, hook: HookResult<S>) returns (r: Outcome<Error>)
      modifies this
      ensures state == hook.after
      ensures r == if hook.thrown.Some? then Fail(hook.thrown.value) else Pass
      ensures players == if r.Pass? then old(players) + [player] else old(players)
    {
      state := hook.after;
      if hook.thrown.Some? {
        return Fail(hook.thrown.value);
      }
      players := players + [player];
      r := Pass;
    }

    /** `leave`: run the subtype's `_leave`, then drop every entry with the player's id. */
    method Leave(player: PlayerID, hook: HookResult<S>) returns (r: Outcome<Error>)
      modifies this
      ensures state == hook.after
      ensures r == if hook.thrown.Some? then Fail(hook.thrown.value) else Pass
      ensures players == if r.Pass? then Without(old(players), player) else old(players)
    {
      state := hook.after;
      if hook.thrown.Some? {
        return Fail(hook.thrown.value);
      }
      players := Without(players, player);
      r := Pass;
    }

    /** An operation Game.js leaves to the subtype (`applyMove`): only the state can change. */
    method Perform(hook: HookResult<S>) returns (r: Outcome<Error>)
      modifies this`state
      ensures state == hook.after
      ensures r == if hook.thrown.Some? then Fail(hook.thrown.value) else Pass
    {
      state := hook.after;
      r := if hook.thrown.Some? then Fail(hook.thrown.value) else Pass;
    }

    /** `toModel`: the live state, the id and the player ids in join order. */
    function ToModel(): (m: GameInstance<S>)
      reads this
      ensures m.state == state && m.id == id && m.players == players
    {
      GameInstance(state, id, players)
    }
  }
}
