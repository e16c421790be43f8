/** The coin reward shown on a task card (`TaskCard` in app/pages/game.tsx): a two-step
    multiplier resolution, then `Math.floor(base_coin_value * difficulty)`. */
module Reward {
  import opened Js
  import opened Domain

  /** `categories.find(c => c.category_id === todo.category_id)?.difficulty_multiplier
      || todo.category.difficulty_multiplier`. A number is falsy in JavaScript exactly when
      it is zero, so a listed multiplier of 0 also falls back to the embedded one. */
  function Difficulty(todo: Todo, categories: seq<Category>): (m: real)
    ensures m == todo.category.difficultyMultiplier
            || exists c :: c in categories && c.categoryId == todo.categoryId
                   && c.difficultyMultiplier != 0.0 && m == c.difficultyMultiplier
  {
    match Find(categories, HasCategoryId(todo.categoryId))
    case Some(c) =>
      if c.difficultyMultiplier != 0.0 then c.difficultyMultiplier
      else todo.category.difficultyMultiplier
    case None => todo.category.difficultyMultiplier
  }

  /** `Math.floor(base * multiplier)`: the largest whole number of coins not above the
      exact product. */
  function FloorCoins(base: int, multiplier: real): (coins: int)
    ensures coins as real <= base as real * multiplier < coins as real + 1.0
  {
    (base as real * multiplier).Floor
  }

  /** The number of coins a task card shows and hands to `onComplete`: the whole part of
      the base value scaled by the resolved multiplier. */
  function TaskReward(todo: Todo, categories: seq<Category>): (coins: int)
    ensures var exact := todo.baseCoinValue as real * Difficulty(todo, categories);
            coins as real <= exact < coins as real + 1.0
  {
    FloorCoins(todo.baseCoinValue, Difficulty(todo, categories))
  }

  /** The first listed category with the todo's flat `category_id` supplies the
      multiplier when that multiplier is non-zero. */
  lemma DifficultyFromList(todo: Todo, categories: seq<Category>, i: nat)
    requires i < |categories| && categories[i].categoryId == todo.categoryId
    requires forall j :: 0 <= j < i ==> categories[j].categoryId != todo.categoryId
    requires categories[i].difficultyMultiplier != 0.0
    ensures Difficulty(todo, categories) == categories[i].difficultyMultiplier
  {
    FindFirst(categories, HasCategoryId(todo.categoryId), i);
  }

  /** When the first listed match has multiplier 0, the embedded category's is used. */
  lemma DifficultyZeroFallsBack(todo: Todo, categories: seq<Category>, i: nat)
    requires i < |categories| && categories[i].categoryId == todo.categoryId
    requires forall j :: 0 <= j < i ==> categories[j].categoryId != todo.categoryId
    requires categories[i].difficultyMultiplier == 0.0
    ensures Difficulty(todo, categories) == todo.category.difficultyMultiplier
  {
    FindFirst(categories, HasCategoryId(todo.categoryId), i);
  }

  /** With no listed category for the todo, the embedded category's multiplier is used. */
  lemma DifficultyMissingFallsBack(todo: Todo, categories: seq<Category>)
    requires forall j :: 0 <= j < |categories| ==> categories[j].categoryId != todo.categoryId
    ensures Difficulty(todo, categories) == todo.category.difficultyMultiplier
  {
    assert Find(categories, HasCategoryId(todo.categoryId)).None?;
  }

  /** Only the first match counts: a later category with the same id never supplies the
      multiplier, whatever its value. */
  lemma DifficultyIgnoresLaterDuplicates(todo: Todo, categories: seq<Category>, later: seq<Category>)
    requires exists i :: 0 <= i < |categories| && categories[i].categoryId == todo.categoryId
    ensures Difficulty(todo, categories + later) == Difficulty(todo, categories)
  {
    var i :| 0 <= i < |categories| && categories[i].categoryId == todo.categoryId;
    FirstMatch(todo, categories, i, later);
  }

  lemma FirstMatch(todo: Todo, categories: seq<Category>, i: nat, later: seq<Category>)
    requires i < |categories| && categories[i].categoryId == todo.categoryId
    ensures Difficulty(todo, categories + later) == Difficulty(todo, categories)
  {
    var k := FirstIndex(categories, todo.categoryId, i);
    FindFirst(categories, HasCategoryId(todo.categoryId), k);
    assert (categories + later)[k] == categories[k];
    FindFirst(categories + later, HasCategoryId(todo.categoryId), k);
  }

  /** The least index at or below `i` holding category `id`. */
  lemma {:induction false} FirstIndex(categories: seq<Category>, id: int, i: nat) returns (k: nat)
    requires i < |categories| && categories[i].categoryId == id
    ensures k <= i && categories[k].categoryId == id
    ensures forall j :: 0 <= j < k ==> categories[j].categoryId != id
  {
    if exists j :: 0 <= j < i && categories[j].categoryId == id {
      var j :| 0 <= j < i && categories[j].categoryId == id;
      k := FirstIndex(categories, id, j);
    } else {
      k := i;
    }
  }

  /** For a non-negative base and a positive multiplier the reward is never negative,
      never above the exact product, and less than one coin below it. */
  lemma RewardBounds(todo: Todo, categories: seq<Category>)
    requires todo.baseCoinValue >= 0 && Difficulty(todo, categories) > 0.0
    ensures var exact := todo.baseCoinValue as real * Difficulty(todo, categories);
            0 <= TaskReward(todo, categories) && TaskReward(todo, categories) as real <= exact
            && exact - 1.0 < TaskReward(todo, categories) as real
  {
  }

  /** A larger base never earns fewer coins under the same non-negative multiplier. */
  lemma FloorCoinsMonotone(base1: int, base2: int, multiplier: real)
    requires base1 <= base2 && multiplier >= 0.0
    ensures FloorCoins(base1, multiplier) <= FloorCoins(base2, multiplier)
  {
    RealMulMonotone(base1 as real, base2 as real, multiplier);
  }

  /** Whole multipliers give exact rewards; fractional products are cut down. */
  lemma RewardExamples()
    ensures FloorCoins(10, 1.5) == 15
    ensures FloorCoins(7, 2.0) == 14
    ensures FloorCoins(3, 1.9) == 5
  {
  }
}
