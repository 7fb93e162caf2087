// The food catalog of the FoodSelector component: an ordered list of food
// names seeded with a default list, an input box, and the food most recently
// picked at random. Each warning toast becomes a typed notice.

module FoodSelector {
  import opened Lists
  import opened JsString
  import opened JsRandom

  /** The warnings the component shows instead of changing its state. */
  datatype Notice = EmptyInput | DuplicateItem | EmptyCatalog

  datatype Outcome = Done | Warned(notice: Notice)

  /** The list the catalog starts from. */
  const DefaultFoods: seq<string> :=
    ["火锅", "烤肉", "炒菜", "面条", "寿司", "披萨", "汉堡", "盖浇饭"]

  /** A name the catalog may hold: non-empty and without surrounding whitespace. */
  predicate IsFoodName(name: string) {
    name != [] && IsTrimmed(name)
  }

  /** What every reachable catalog satisfies: proper names, none of them twice. */
  predicate CatalogInvariant(foods: seq<string>) {
    (forall i :: 0 <= i < |foods| ==> IsFoodName(foods[i])) && Distinct(foods)
  }

  /** `foods.filter(f => f !== food)`. */
  function RemoveAll(foods: seq<string>, food: string): (r: seq<string>)
    ensures |r| <= |foods|
    ensures forall x :: x in r <==> x in foods && x != food
  {
    if foods == [] then []
    else if foods[0] == food then RemoveAll(foods[1..], food)
    else [foods[0]] + RemoveAll(foods[1..], food)
  }

  lemma DefaultFoodsValid()
    ensures CatalogInvariant(DefaultFoods)
  {
  }

  /** The input the add button accepts, trimmed, extends a valid catalog to a valid catalog. */
  lemma AddPreservesInvariant(foods: seq<string>, input: string)
    requires CatalogInvariant(foods)
    requires Trim(input) != [] && Trim(input) !in foods
    ensures CatalogInvariant(foods + [Trim(input)])
  {
    var s := foods + [Trim(input)];
    forall i, j | 0 <= i < j < |s| ensures s[i] != s[j] {
      if j == |foods| {
        assert s[i] == foods[i];
      } else {
        assert s[i] == foods[i] && s[j] == foods[j];
      }
    }
  }

  /** Filtering works piece by piece, so the kept entries stay in their order. */
  lemma {:induction false} RemoveAllConcat(a: seq<string>, b: seq<string>, food: string)
    ensures RemoveAll(a + b, food) == RemoveAll(a, food) + RemoveAll(b, food)
  {
    if a == [] {
      assert a + b == b;
    } else {
      assert (a + b)[1..] == a[1..] + b;
      RemoveAllConcat(a[1..], b, food);
    }
  }

  /** Removing a name the catalog does not hold changes nothing. */
  lemma {:induction false} RemoveAbsentIsNoOp(foods: seq<string>, food: string)
    requires food !in foods
    ensures RemoveAll(foods, food) == foods
  {
    if foods != [] {
      RemoveAbsentIsNoOp(foods[1..], food);
      assert foods == [foods[0]] + foods[1..];
    }
  }

  /** In a catalog without repeats, removal cuts out exactly the one matching entry. */
  lemma {:induction false} RemoveFromDistinct(foods: seq<string>, k: nat)
    requires Distinct(foods)
    requires k < |foods|
    ensures RemoveAll(foods, foods[k]) == foods[..k] + foods[k + 1..]
  {
    var food, head, tail := foods[k], foods[..k], foods[k + 1..];
    assert foods == head + [food] + tail;
    assert food !in head by {
      forall i | 0 <= i < |head| ensures head[i] != food {
        assert head[i] == foods[i];
      }
    }
    assert food !in tail by {
      forall i | 0 <= i < |tail| ensures tail[i] != food {
        assert tail[i] == foods[k + 1 + i];
      }
    }
    RemoveAllConcat(head + [food], tail, food);
    RemoveAllConcat(head, [food], food);
    RemoveAbsentIsNoOp(head, food);
    RemoveAbsentIsNoOp(tail, food);
    assert RemoveAll([food], food) == [];
  }

  /** Removal keeps a valid catalog valid. */
  lemma {:induction false} RemovePreservesInvariant(foods: seq<string>, food: string)
    requires CatalogInvariant(foods)
    ensures CatalogInvariant(RemoveAll(foods, food))
  {
    if foods != [] {
      DistinctCons(foods[0], foods[1..]);
      assert foods == [foods[0]] + foods[1..];
      RemovePreservesInvariant(foods[1..], food);
      var rest := RemoveAll(foods[1..], food);
      if foods[0] != food {
        DistinctCons(foods[0], rest);
      }
    }
  }

  /** The state of one FoodSelector component. */
  class FoodSelectorState {
    var foods: seq<string>
    var selectedFood: string
    var newFood: string

    ghost predicate Valid()
      reads this
    {
      CatalogInvariant(foods)
    }

    constructor ()
      ensures Valid()
      ensures foods == DefaultFoods && selectedFood == "" && newFood == ""
    {
      foods := DefaultFoods;
      selectedFood := "";
      newFood := "";
      DefaultFoodsValid();
    }

    /** Typing into the input box. */
    method SetNewFood(text: string)
      requires Valid()
      modifies this`newFood
      ensures Valid()
      ensures newFood == text
    {
      newFood := text;
    }

    /**
     * The add button: a blank input or a name already listed leaves the state
     * alone and warns; otherwise the trimmed name goes at the end and the
     * input is cleared.
     */
    method AddFood() returns (outcome: Outcome)
      requires Valid()
      modifies this`foods, this`newFood
      ensures Valid()
      ensures outcome == Warned(EmptyInput) <==> Trim(old(newFood)) == []
      ensures outcome == Warned(DuplicateItem) <==>
                Trim(old(newFood)) != [] && Trim(old(newFood)) in old(foods)
      ensures outcome == Done <==> Trim(old(newFood)) != [] && Trim(old(newFood)) !in old(foods)
      ensures outcome.Warned? ==> foods == old(foods) && newFood == old(newFood)
      ensures outcome == Done ==> foods == old(foods) + [Trim(old(newFood))] && newFood == ""
    {
      if Trim(newFood) == [] {
        return Warned(EmptyInput);
      }
      if Trim(newFood) in foods {
        return Warned(DuplicateItem);
      }
      AddPreservesInvariant(foods, newFood);
      foods := foods + [Trim(newFood)];
      newFood := "";
      outcome := Done;
    }

    /** The close button on a food's tag. */
    method RemoveFood(food: string)
      requires Valid()
      modifies this`foods
      ensures Valid()
      ensures foods == RemoveAll(old(foods), food)
    {
      RemovePreservesInvariant(foods, food);
      foods := RemoveAll(foods, food);
    }

    /**
     * The random-pick button; `draw` is what Math.random() returned. An empty
     * catalog only warns; otherwise the entry at the drawn index is shown.
     */
    method SelectRandomFood(draw: real) returns (outcome: Outcome)
      requires Valid()
      requires 0.0 <= draw < 1.0
      modifies this`selectedFood
      ensures Valid()
      ensures foods == [] ==> outcome == Warned(EmptyCatalog) && selectedFood == old(selectedFood)
      ensures foods != [] ==> outcome == Done && selectedFood == foods[RandomIndex(draw, |foods|)]
      ensures foods != [] ==> selectedFood in foods
    {
      if |foods| == 0 {
        return Warned(EmptyCatalog);
      }
      var randomIndex := RandomIndex(draw, |foods|);
      selectedFood := foods[randomIndex];
      outcome := Done;
    }
  }

  /**
   * A client of the component: typing a new name (stray spaces allowed) adds
   * it once, trimmed, at the end; typing the same name again is refused and
   * leaves the catalog as it was.
   */
  method AddSameNameTwice(typed: string) returns (first: Outcome, second: Outcome, foods: seq<string>)
    requires Trim(typed) != [] && Trim(typed) !in DefaultFoods
    ensures first == Done && second == Warned(DuplicateItem)
    ensures foods == DefaultFoods + [Trim(typed)]
  {
    var c := new FoodSelectorState();
    c.SetNewFood(typed);
    first := c.AddFood();
    TrimIdempotent(typed);
    c.SetNewFood(Trim(typed));
    second := c.AddFood();
    foods := c.foods;
  }
}
