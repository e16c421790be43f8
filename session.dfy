/** The screen state `handleComplete` changes (app/pages/game.tsx): the coin balance
    (`coins`, updated with `setCoins`) and the list of flying-coin animations
    (`coinAnimations`, updated with `setCoinAnimations`). The network request is replaced
    by its outcome, passed in; the clock (`Date.now()`) and the measured card position are
    parameters too. */
module Session {
  import opened Js
  import opened Domain
  import opened Reward

  /** A screen position, as `measureInWindow` reports it. */
  datatype Point = Point(x: real, y: real)

  /** An entry of `coinAnimations`: `{ id, position, coins }`. */
  datatype CoinAnimation = CoinAnimation(id: int, position: Point, coins: int)

  /** How the `PUT /api/todos/{todo_id}/complete` request ended: an ok response whose
      body carries `coins_earned`, or a failure (`!res.ok`, or a thrown error). */
  datatype CompletionResponse = Completed(coinsEarned: int) | Failed

  /** The sum of a list of credits. */
  function Sum(xs: seq<int>): int
  {
    if xs == [] then 0 else Sum(xs[..|xs| - 1]) + xs[|xs| - 1]
  }

  /** Crediting one more amount adds it to the sum. */
  lemma SumAppend(xs: seq<int>, x: int)
    ensures Sum(xs + [x]) == Sum(xs) + x
  {
    assert (xs + [x])[..|xs|] == xs;
  }

  /** The test `a.id !== id`. */
  function OtherThan(id: int): CoinAnimation -> bool
  {
    (a: CoinAnimation) => a.id != id
  }

  /** `prev.filter((a) => a.id !== id)`: every animation with that id is gone. */
  function WithoutAnimation(animations: seq<CoinAnimation>, id: int): (r: seq<CoinAnimation>)
    ensures forall i :: 0 <= i < |r| ==> r[i].id != id
  {
    Filter(animations, OtherThan(id))
  }

  /** Removal drops exactly the entries with that id and keeps every other entry. */
  lemma WithoutAnimationKeepsOthers(animations: seq<CoinAnimation>, id: int, a: CoinAnimation)
    ensures a in WithoutAnimation(animations, id) <==> a in animations && a.id != id
  {
    FilterMembership(animations, OtherThan(id), a);
  }

  /** Removing the same id twice (the timer and the animation's own `onComplete` both do)
      is the same as removing it once. */
  lemma WithoutAnimationTwice(animations: seq<CoinAnimation>, id: int)
    ensures WithoutAnimation(WithoutAnimation(animations, id), id) == WithoutAnimation(animations, id)
  {
    FilterIdempotent(animations, OtherThan(id));
  }

  /** Appending an animation under an id no other entry uses and then removing that id
      gives back the list as it was. */
  lemma AppendThenRemove(animations: seq<CoinAnimation>, a: CoinAnimation)
    requires forall i :: 0 <= i < |animations| ==> animations[i].id != a.id
    ensures WithoutAnimation(animations + [a], a.id) == animations
  {
    FilterConcat(animations, [a], OtherThan(a.id));
    FilterKeepsAll(animations, OtherThan(a.id));
    assert Filter([a], OtherThan(a.id)) == [];
  }

  /** Two completions stamped with the same millisecond share an id: removing it for one
      also removes the other's animation. */
  lemma SharedIdRemovesBoth(animations: seq<CoinAnimation>, a: CoinAnimation, b: CoinAnimation)
    requires a.id == b.id
    ensures WithoutAnimation(animations + [a, b], a.id) == WithoutAnimation(animations, a.id)
  {
    FilterConcat(animations, [a, b], OtherThan(a.id));
    assert [a, b][1..] == [b];
    assert Filter([a, b], OtherThan(a.id)) == [];
  }

  class GameScreen {
    /** The balance shown in the coin header. */
    var coins: int
    /** The flying-coin animations currently on screen, oldest first. */
    var coinAnimations: seq<CoinAnimation>
    /** The balance last loaded from the server. */
    ghost var loadedCoins: int
    /** The `coins_earned` of every completion the server confirmed since that load. */
    ghost var credits: seq<int>

    /** The balance is the loaded balance plus every confirmed credit, and nothing else. */
    ghost predicate Valid()
      reads this
    {
      coins == loadedCoins + Sum(credits)
    }

    /** `useState(0)` and `useState([])` when the screen mounts. */
    constructor ()
      ensures Valid()
      ensures coins == 0 && coinAnimations == [] && credits == []
    {
      coins := 0;
      coinAnimations := [];
      loadedCoins := 0;
      credits := [];
    }

    /** `setCoins(userData.total_coins || 0)` at the end of `fetchData`: the server's
        balance replaces the local one (a missing or zero balance reads as 0). */
    method LoadCoins(totalCoins: Option<int>)
      modifies this`coins, this`loadedCoins, this`credits
      ensures Valid()
      ensures coins == (if totalCoins.Some? then totalCoins.value else 0)
      ensures credits == []
    {
      coins := if totalCoins.Some? then totalCoins.value else 0;
      loadedCoins := coins;
      credits := [];
    }

    /** `handleComplete(todo_id, position, coinsEarned)`. Without a stored token nothing
        happens. Otherwise an animation showing `coinsEarned` is appended under
        `animationId`; then, if the server confirmed the completion, the balance grows by
        the server's `coins_earned` (not by the displayed amount) and the animation's
        removal is scheduled, which is returned. A failed request changes no coins. */
    method HandleComplete(hasToken: bool, animationId: int, position: Point, coinsEarned: int,
                          response: CompletionResponse)
      returns (scheduledRemoval: Option<int>)
      requires Valid()
      modifies this`coins, this`coinAnimations, this`credits
      ensures Valid()
      ensures !hasToken ==> coins == old(coins) && credits == old(credits)
                            && coinAnimations == old(coinAnimations) && scheduledRemoval == None
      ensures hasToken ==>
                coinAnimations == old(coinAnimations) + [CoinAnimation(animationId, position, coinsEarned)]
      ensures hasToken && response.Completed? ==>
                coins == old(coins) + response.coinsEarned
                && credits == old(credits) + [response.coinsEarned]
                && scheduledRemoval == Some(animationId)
      ensures hasToken && response.Failed? ==>
                coins == old(coins) && credits == old(credits) && scheduledRemoval == None
    {
      scheduledRemoval := None;
      if !hasToken {
        return;
      }
      coinAnimations := coinAnimations + [CoinAnimation(animationId, position, coinsEarned)];
      if response.Completed? {
        SumAppend(credits, response.coinsEarned);
        coins := coins + response.coinsEarned;
        credits := credits + [response.coinsEarned];
        scheduledRemoval := Some(animationId);
      }
    }

    /** `setCoinAnimations((prev) => prev.filter((a) => a.id !== id))`, run by the timer
        `handleComplete` schedules and by each animation's `onComplete`. */
    method RemoveCoinAnimation(id: int)
      modifies this`coinAnimations
      ensures coinAnimations == WithoutAnimation(old(coinAnimations), id)
    {
      coinAnimations := Filter(coinAnimations, OtherThan(id));
    }

    /** `handleCollect` on a task card: the card's own reward is what the animation shows,
        while the balance still moves by what the server reports. The collect button is
        only drawn for a todo that is not completed. */
    method Collect(todo: Todo, categories: seq<Category>, hasToken: bool, animationId: int,
                   position: Point, response: CompletionResponse)
      returns (scheduledRemoval: Option<int>)
      requires Valid() && !todo.completed
      modifies this`coins, this`coinAnimations, this`credits
      ensures Valid()
      ensures hasToken ==> coinAnimations == old(coinAnimations)
                             + [CoinAnimation(animationId, position, TaskReward(todo, categories))]
      ensures !hasToken ==> coinAnimations == old(coinAnimations)
      ensures coins == old(coins) + (if hasToken && response.Completed? then response.coinsEarned else 0)
      ensures credits == old(credits) + (if hasToken && response.Completed? then [response.coinsEarned] else [])
      ensures scheduledRemoval == (if hasToken && response.Completed? then Some(animationId) else None)
    {
      scheduledRemoval := HandleComplete(hasToken, animationId, position, TaskReward(todo, categories), response);
    }
  }
}
