/** The part of the database the create mutation writes: the recipe table
    and the ingredient table, whose rows point at their recipe. A recipe is
    created together with its ingredients in one nested create. */
module RecipeStore {
  import opened JsValues
  import opened Schemas

  /** The columns of a recipe row other than its id. */
  datatype RecipeData = RecipeData(
    name: string,
    description: string,
    recipeYield: string,
    instruction: string,
    preptime: Option<Number>,
    fatcontent: Option<string>,
    calories: Option<Number>,
    cooktime: Number,
    meal: string,
    diet: string,
    authorId: string,
    imageUrl: string,
    datepublished: string)

  /** A stored recipe: the id the database gave it and its columns. */
  datatype Recipe = Recipe(id: nat, data: RecipeData)

  /** A stored ingredient: its own id, its text and the id of its recipe. */
  datatype IngredientRow = IngredientRow(id: nat, ingredient: string, recipeId: nat)

  /** The rows a nested create makes for the given ingredient texts, in
      order, all pointing at recipeId, with consecutive ids from firstId. */
  function IngredientRows(texts: seq<string>, recipeId: nat, firstId: nat): (rows: seq<IngredientRow>)
    ensures |rows| == |texts|
    ensures forall k :: 0 <= k < |rows| ==> rows[k] == IngredientRow(firstId + k, texts[k], recipeId)
  {
    seq(|texts|, k requires 0 <= k < |texts| => IngredientRow(firstId + k, texts[k], recipeId))
  }

  /** The texts of the rows that belong to recipe id, in table order. */
  function TextsOf(rows: seq<IngredientRow>, id: nat): (texts: seq<string>)
    ensures |texts| <= |rows|
  {
    if |rows| == 0 then []
    else (if rows[0].recipeId == id then [rows[0].ingredient] else []) + TextsOf(rows[1..], id)
  }

  /** Whether some recipe has this id. */
  predicate HasRecipe(recipes: seq<Recipe>, id: nat) {
    exists j :: 0 <= j < |recipes| && recipes[j].id == id
  }

  /** The tables' integrity: recipe ids and ingredient ids increase strictly
      (so no id is used twice) and stay below the next id to hand out, and
      every ingredient points at a stored recipe. */
  predicate StoreInvariant(recipes: seq<Recipe>, rows: seq<IngredientRow>, nextRecipeId: nat, nextRowId: nat) {
    && (forall i :: 0 <= i < |recipes| ==> recipes[i].id < nextRecipeId)
    && (forall i, j :: 0 <= i < j < |recipes| ==> recipes[i].id < recipes[j].id)
    && (forall i :: 0 <= i < |rows| ==> rows[i].id < nextRowId)
    && (forall i, j :: 0 <= i < j < |rows| ==> rows[i].id < rows[j].id)
    && (forall i :: 0 <= i < |rows| ==> HasRecipe(recipes, rows[i].recipeId))
  }

  /** Adding a recipe under the next recipe id, with its ingredient rows
      under the next ingredient ids, keeps the tables' integrity. */
  lemma {:induction false} InsertKeepsInvariant(recipes: seq<Recipe>, rows: seq<IngredientRow>, nextRecipeId: nat,
                                                nextRowId: nat, data: RecipeData, texts: seq<string>)
    requires StoreInvariant(recipes, rows, nextRecipeId, nextRowId)
    ensures StoreInvariant(recipes + [Recipe(nextRecipeId, data)],
                           rows + IngredientRows(texts, nextRecipeId, nextRowId),
                           nextRecipeId + 1, nextRowId + |texts|)
  {
    var recipes' := recipes + [Recipe(nextRecipeId, data)];
    var added := IngredientRows(texts, nextRecipeId, nextRowId);
    var rows' := rows + added;
    assert recipes'[|recipes|].id == nextRecipeId;
    forall i | 0 <= i < |rows'| ensures HasRecipe(recipes', rows'[i].recipeId) {
      if i < |rows| {
        var j :| 0 <= j < |recipes| && recipes[j].id == rows[i].recipeId;
        assert recipes'[j].id == rows'[i].recipeId;
      } else {
        assert rows'[i] == added[i - |rows|];
      }
    }
    forall i, j | 0 <= i < j < |rows'| ensures rows'[i].id < rows'[j].id {
      if j >= |rows| {
        assert rows'[j] == added[j - |rows|];
        if i >= |rows| {
          assert rows'[i] == added[i - |rows|];
        }
      }
    }
  }

  /** The texts of a concatenation of tables are those of each part. */
  lemma {:induction false} TextsOfAppend(a: seq<IngredientRow>, b: seq<IngredientRow>, id: nat)
    ensures TextsOf(a + b, id) == TextsOf(a, id) + TextsOf(b, id)
  {
    if |a| == 0 {
      assert a + b == b;
    } else {
      assert (a + b)[1..] == a[1..] + b;
      TextsOfAppend(a[1..], b, id);
    }
  }

  /** A table none of whose rows points at id holds no text for it. */
  lemma {:induction false} TextsOfNone(rows: seq<IngredientRow>, id: nat)
    requires forall i :: 0 <= i < |rows| ==> rows[i].recipeId != id
    ensures TextsOf(rows, id) == []
  {
    if |rows| > 0 {
      TextsOfNone(rows[1..], id);
    }
  }

  /** The rows of a nested create hold exactly the given texts, in order,
      for their recipe, and nothing for any other recipe. */
  lemma {:induction false} TextsOfRows(texts: seq<string>, recipeId: nat, firstId: nat, id: nat)
    ensures TextsOf(IngredientRows(texts, recipeId, firstId), id) == (if id == recipeId then texts else [])
  {
    var rows := IngredientRows(texts, recipeId, firstId);
    if |texts| > 0 {
      TextsOfRows(texts[1..], recipeId, firstId + 1, id);
      assert rows[1..] == IngredientRows(texts[1..], recipeId, firstId + 1);
      if id == recipeId {
        assert [texts[0]] + texts[1..] == texts;
      }
    }
  }

  /** After an insert under a fresh recipe id, the new recipe's ingredients
      are exactly the submitted texts in their order, and every other
      recipe keeps the ingredients it had. */
  lemma {:induction false} InsertedIngredients(recipes: seq<Recipe>, rows: seq<IngredientRow>, nextRecipeId: nat,
                                               nextRowId: nat, texts: seq<string>, id: nat)
    requires StoreInvariant(recipes, rows, nextRecipeId, nextRowId)
    ensures TextsOf(rows + IngredientRows(texts, nextRecipeId, nextRowId), id)
            == (if id == nextRecipeId then texts else TextsOf(rows, id))
  {
    TextsOfAppend(rows, IngredientRows(texts, nextRecipeId, nextRowId), id);
    TextsOfRows(texts, nextRecipeId, nextRowId, id);
    if id == nextRecipeId {
      forall i | 0 <= i < |rows| ensures rows[i].recipeId != id {
        var j :| 0 <= j < |recipes| && recipes[j].id == rows[i].recipeId;
      }
      TextsOfNone(rows, id);
    }
  }

  /** The two tables, with the ids the database hands out next. */
  class Store {
    var recipes: seq<Recipe>
    var ingredients: seq<IngredientRow>
    var nextRecipeId: nat
    var nextIngredientId: nat

    ghost predicate Valid()
      reads this
    {
      StoreInvariant(recipes, ingredients, nextRecipeId, nextIngredientId)
    }

    /** Empty tables. */
    constructor ()
      ensures recipes == [] && ingredients == []
      ensures nextRecipeId == 0 && nextIngredientId == 0
      ensures Valid()
    {
      recipes := [];
      ingredients := [];
      nextRecipeId := 0;
      nextIngredientId := 0;
    }

    /** The texts of the ingredients stored for recipe id. */
    function IngredientsOf(id: nat): seq<string>
      reads this
    {
      TextsOf(ingredients, id)
    }

    /** prisma.recipe.create with a nested create of the ingredients: the
        recipe is appended under a fresh id, its ingredients are appended
        under fresh ids pointing at it, and the stored recipe is returned.
        The new recipe's ingredients are exactly the given texts; every
        other recipe keeps its ingredients. */
    method Insert(data: RecipeData, texts: seq<string>) returns (r: Recipe)
      requires Valid()
      modifies this
      ensures r == Recipe(old(nextRecipeId), data)
      ensures recipes == old(recipes) + [r]
      ensures ingredients == old(ingredients) + IngredientRows(texts, r.id, old(nextIngredientId))
      ensures nextRecipeId == old(nextRecipeId) + 1
      ensures nextIngredientId == old(nextIngredientId) + |texts|
      ensures Valid()
      ensures !HasRecipe(old(recipes), r.id)
      ensures IngredientsOf(r.id) == texts
      ensures forall id :: id != r.id ==> IngredientsOf(id) == old(IngredientsOf(id))
    {
      InsertKeepsInvariant(recipes, ingredients, nextRecipeId, nextIngredientId, data, texts);
      forall id ensures TextsOf(ingredients + IngredientRows(texts, nextRecipeId, nextIngredientId), id)
                        == (if id == nextRecipeId then texts else TextsOf(ingredients, id)) {
        InsertedIngredients(recipes, ingredients, nextRecipeId, nextIngredientId, texts, id);
      }
      r := Recipe(nextRecipeId, data);
      recipes := recipes + [r];
      ingredients := ingredients + IngredientRows(texts, r.id, nextIngredientId);
      nextRecipeId := nextRecipeId + 1;
      nextIngredientId := nextIngredientId + |texts|;
    }
  }
}
