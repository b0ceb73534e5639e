/** The recipes router's create mutation (src/server/api/routers/recipe.ts):
    the input schema the request body must meet, the recipe record built
    from it, and the insert into the store. */
module RecipeRouter {
  import opened JsValues
  import opened Schemas
  import opened RecipeStore

  /** The image every new recipe gets. */
  const Placeholder := "https://placehold.co/600x400"

  /** The input schema's fields, in the order it lists them. */
  datatype InputField =
    | Name | Description | Yield | Ingredients | Instruction
    | Preptime | Fatcontent | Calories | Cooktime | Meal | Diet
  {
    /** The field's key in the request body. */
    function Key(): string {
      match this
      case Name => "name"
      case Description => "description"
      case Yield => "yield"
      case Ingredients => "ingredients"
      case Instruction => "instruction"
      case Preptime => "preptime"
      case Fatcontent => "fatcontent"
      case Calories => "calories"
      case Cooktime => "cooktime"
      case Meal => "meal"
      case Diet => "diet"
    }
  }

  /** Whether a key is one the input schema lists. */
  predicate IsSchemaKey(key: string) {
    exists f: InputField :: f.Key() == key
  }

  /** Where an issue is: the body itself, one of its fields, one element of
      the ingredients array, or the ingredient text of one element. */
  datatype InputPath =
    | Root
    | At(field: InputField)
    | Element(index: nat)
    | ElementText(index: nat)

  /** The input after parsing: unknown keys dropped, each ingredient object
      reduced to its one ingredient text. */
  datatype RecipeInput = RecipeInput(
    name: string,
    description: string,
    recipeYield: string,
    ingredients: seq<string>,
    instruction: string,
    preptime: Option<Number>,
    fatcontent: Option<string>,
    calories: Option<Number>,
    cooktime: Number,
    meal: string,
    diet: string)

  /** Whether an element of the ingredients array is an object whose
      ingredient is a string. */
  predicate IsIngredientObject(item: Value) {
    item.Obj? && Get(item.fields, "ingredient").Str?
  }

  /** The issues z.object({ ingredient: z.string() }) reports for the
      element at index k. */
  function ElementIssues(item: Value, k: nat): (issues: seq<Issue<InputPath>>)
    ensures issues == [] <==> IsIngredientObject(item)
    ensures !item.Obj? ==> issues == [Issue(Element(k), TypeMessage("object", item))]
    ensures item.Obj? && !IsIngredientObject(item) ==>
              issues == [Issue(ElementText(k), TypeMessage("string", Get(item.fields, "ingredient")))]
  {
    if !item.Obj? then [Issue(Element(k), TypeMessage("object", item))]
    else IssuesAt(ElementText(k), ExpectString(Get(item.fields, "ingredient")))
  }

  /** The issues of the elements from index `from` on, in array order. */
  function ElementsIssues(items: seq<Value>, from: nat): (issues: seq<Issue<InputPath>>)
    requires from <= |items|
    ensures issues == [] <==> forall k :: from <= k < |items| ==> IsIngredientObject(items[k])
    decreases |items| - from
  {
    if from == |items| then [] else ElementIssues(items[from], from) + ElementsIssues(items, from + 1)
  }

  /** z.object({ ingredient: z.string() }).array(): an array of ingredient
      objects, any number of them, none at all included. The result is
      their texts in order. */
  function ParseIngredients(v: Value): (r: Parsed<seq<string>, InputPath>)
    ensures r.Success? <==> v.Arr? && forall k :: 0 <= k < |v.items| ==> IsIngredientObject(v.items[k])
    ensures r.Success? ==> |r.value| == |v.items|
                           && forall k :: 0 <= k < |r.value| ==> Get(v.items[k].fields, "ingredient") == Str(r.value[k])
    ensures !v.Arr? ==> r == Failure([Issue(At(Ingredients), TypeMessage("array", v))])
    ensures r.Failure? ==> |r.issues| > 0
  {
    if !v.Arr? then Failure([Issue(At(Ingredients), TypeMessage("array", v))])
    else
      var issues := ElementsIssues(v.items, 0);
      if issues == [] then
        Success(seq(|v.items|, k requires 0 <= k < |v.items| && IsIngredientObject(v.items[k]) =>
                                  Get(v.items[k].fields, "ingredient").s))
      else Failure(issues)
  }

  /** Every field's own outcome, before the object schema combines them. */
  datatype InputOutcomes = InputOutcomes(
    name: Checked<string>,
    description: Checked<string>,
    recipeYield: Checked<string>,
    ingredients: Parsed<seq<string>, InputPath>,
    instruction: Checked<string>,
    preptime: Checked<Option<Number>>,
    fatcontent: Checked<Option<string>>,
    calories: Checked<Option<Number>>,
    cooktime: Checked<Number>,
    meal: Checked<string>,
    diet: Checked<string>)
  {
    /** Whether every field passed. */
    predicate AllPass() {
      && name.Pass? && description.Pass? && recipeYield.Pass? && ingredients.Success?
      && instruction.Pass? && preptime.Pass? && fatcontent.Pass? && calories.Pass?
      && cooktime.Pass? && meal.Pass? && diet.Pass?
    }

    /** The issues of all fields, in the schema's order. */
    function Issues(): seq<Issue<InputPath>> {
      IssuesAt(At(Name), name) + IssuesAt(At(Description), description) + IssuesAt(At(Yield), recipeYield)
      + (if ingredients.Failure? then ingredients.issues else [])
      + IssuesAt(At(Instruction), instruction) + IssuesAt(At(Preptime), preptime)
      + IssuesAt(At(Fatcontent), fatcontent) + IssuesAt(At(Calories), calories)
      + IssuesAt(At(Cooktime), cooktime) + IssuesAt(At(Meal), meal) + IssuesAt(At(Diet), diet)
    }
  }

  /** The value the body holds for a field. */
  function ValueOf(body: map<string, Value>, f: InputField): Value {
    Get(body, f.Key())
  }

  /** Each field of the body checked by its own schema. */
  function CheckInputFields(body: map<string, Value>): (o: InputOutcomes)
    ensures o.AllPass() <==> WellTyped(body)
  {
    InputOutcomes(
      ExpectString(ValueOf(body, Name)),
      ExpectString(ValueOf(body, Description)),
      ExpectString(ValueOf(body, Yield)),
      ParseIngredients(ValueOf(body, Ingredients)),
      ExpectString(ValueOf(body, Instruction)),
      Optional(ValueOf(body, Preptime), ExpectNumber),
      Optional(ValueOf(body, Fatcontent), ExpectString),
      Optional(ValueOf(body, Calories), ExpectNumber),
      ExpectNumber(ValueOf(body, Cooktime)),
      ExpectString(ValueOf(body, Meal)),
      ExpectString(ValueOf(body, Diet)))
  }

  /** The object schema's verdict on its fields' outcomes. */
  function CombineInput(o: InputOutcomes): (r: Parsed<RecipeInput, InputPath>)
    ensures r.Success? <==> o.AllPass()
    ensures r.Failure? ==> r.issues == o.Issues()
  {
    if o.AllPass() then
      Success(RecipeInput(o.name.value, o.description.value, o.recipeYield.value, o.ingredients.value,
                          o.instruction.value, o.preptime.value, o.fatcontent.value, o.calories.value,
                          o.cooktime.value, o.meal.value, o.diet.value))
    else
      Failure(o.Issues())
  }

  /** Whether a value meets z.optional(z.number()). */
  predicate OptionalNumber(v: Value) {
    v.Undefined? || (v.Num? && !v.n.NaN?)
  }

  /** A body the input schema accepts, stated field by field. */
  predicate WellTyped(body: map<string, Value>) {
    var ingredients := ValueOf(body, Ingredients);
    && ValueOf(body, Name).Str? && ValueOf(body, Description).Str? && ValueOf(body, Yield).Str?
    && ingredients.Arr? && (forall k :: 0 <= k < |ingredients.items| ==> IsIngredientObject(ingredients.items[k]))
    && ValueOf(body, Instruction).Str?
    && OptionalNumber(ValueOf(body, Preptime))
    && (ValueOf(body, Fatcontent).Undefined? || ValueOf(body, Fatcontent).Str?)
    && OptionalNumber(ValueOf(body, Calories))
    && ValueOf(body, Cooktime).Num? && !ValueOf(body, Cooktime).n.NaN?
    && ValueOf(body, Meal).Str? && ValueOf(body, Diet).Str?
  }

  /** The input validator of create. The body is accepted exactly when it is
      an object of the right shape, and the parsed input then holds the
      body's own values; keys the schema does not list are ignored. A body
      that is not an object is rejected as a whole. */
  function ParseInput(raw: Value): (r: Parsed<RecipeInput, InputPath>)
    ensures r.Success? <==> raw.Obj? && WellTyped(raw.fields)
    ensures r.Success? ==>
              && ValueOf(raw.fields, Name) == Str(r.value.name)
              && ValueOf(raw.fields, Description) == Str(r.value.description)
              && ValueOf(raw.fields, Yield) == Str(r.value.recipeYield)
              && ValueOf(raw.fields, Instruction) == Str(r.value.instruction)
              && ValueOf(raw.fields, Cooktime) == Num(r.value.cooktime)
              && ValueOf(raw.fields, Meal) == Str(r.value.meal)
              && ValueOf(raw.fields, Diet) == Str(r.value.diet)
              && |r.value.ingredients| == |ValueOf(raw.fields, Ingredients).items|
              && (forall k :: 0 <= k < |r.value.ingredients| ==>
                    Get(ValueOf(raw.fields, Ingredients).items[k].fields, "ingredient") == Str(r.value.ingredients[k]))
    ensures r.Success? ==>
              && (r.value.preptime.None? <==> ValueOf(raw.fields, Preptime).Undefined?)
              && (r.value.preptime.Some? ==> ValueOf(raw.fields, Preptime) == Num(r.value.preptime.value))
              && (r.value.fatcontent.None? <==> ValueOf(raw.fields, Fatcontent).Undefined?)
              && (r.value.fatcontent.Some? ==> ValueOf(raw.fields, Fatcontent) == Str(r.value.fatcontent.value))
              && (r.value.calories.None? <==> ValueOf(raw.fields, Calories).Undefined?)
              && (r.value.calories.Some? ==> ValueOf(raw.fields, Calories) == Num(r.value.calories.value))
    ensures !raw.Obj? ==> r == Failure([Issue(Root, TypeMessage("object", raw))])
    ensures raw.Obj? && r.Failure? ==> r.issues == CheckInputFields(raw.fields).Issues()
  {
    if raw.Obj? then CombineInput(CheckInputFields(raw.fields))
    else Failure([Issue(Root, TypeMessage("object", raw))])
  }

  /** A rejected input always says why. */
  lemma {:induction false} RejectionExplained(raw: Value)
    requires ParseInput(raw).Failure?
    ensures |ParseInput(raw).issues| > 0
  {
    if raw.Obj? {
      var o := CheckInputFields(raw.fields);
      if !o.name.Pass? {
        assert IssuesAt(At(Name), o.name)[0] == o.Issues()[0];
      }
    }
  }

  /** A key the schema does not list has no effect on the outcome: it is
      neither checked nor handed on. */
  lemma {:induction false} UnknownKeyIgnored(body: map<string, Value>, key: string, v: Value)
    requires !IsSchemaKey(key)
    ensures ParseInput(Obj(body[key := v])) == ParseInput(Obj(body))
  {
    forall f: InputField ensures ValueOf(body[key := v], f) == ValueOf(body, f) {
      assert f.Key() != key;
    }
    assert CheckInputFields(body[key := v]) == CheckInputFields(body);
  }

  /** An empty ingredients array passes the schema: a recipe can be
      created without any ingredient. */
  lemma {:induction false} NoIngredientsAccepted(body: map<string, Value>)
    requires WellTyped(body) && ValueOf(body, Ingredients) == Arr([])
    ensures ParseInput(Obj(body)).Success?
    ensures ParseInput(Obj(body)).value.ingredients == []
  {
  }

  /** The recipe record of the mutation: the input's fields, the author is
      the signed-in user, the image is the placeholder and the publication
      date is empty. */
  function RecordData(input: RecipeInput, userId: string): (d: RecipeData)
    ensures d.authorId == userId && d.imageUrl == Placeholder && d.datepublished == ""
    ensures d.name == input.name && d.description == input.description && d.recipeYield == input.recipeYield
    ensures d.instruction == input.instruction && d.meal == input.meal && d.diet == input.diet
    ensures d.preptime == input.preptime && d.fatcontent == input.fatcontent
    ensures d.calories == input.calories && d.cooktime == input.cooktime
  {
    RecipeData(input.name, input.description, input.recipeYield, input.instruction, input.preptime,
               input.fatcontent, input.calories, input.cooktime, input.meal, input.diet,
               userId, Placeholder, "")
  }

  /** Whatever authorId (or other unlisted key) the client sends, the record
      names the signed-in user as its author. */
  lemma {:induction false} AuthorIsSignedInUser(body: map<string, Value>, key: string, v: Value, userId: string)
    requires !IsSchemaKey(key)
    requires ParseInput(Obj(body[key := v])).Success?
    ensures ParseInput(Obj(body)).Success?
    ensures RecordData(ParseInput(Obj(body[key := v])).value, userId)
            == RecordData(ParseInput(Obj(body)).value, userId)
    ensures RecordData(ParseInput(Obj(body[key := v])).value, userId).authorId == userId
  {
    UnknownKeyIgnored(body, key, v);
  }

  /** The create mutation: validate the body; when it is rejected report the
      issues and leave the store alone, otherwise insert the record with its
      ingredients and return the stored recipe. */
  method Create(store: Store, raw: Value, userId: string) returns (r: Parsed<Recipe, InputPath>)
    requires store.Valid()
    modifies store
    ensures store.Valid()
    ensures ParseInput(raw).Failure? ==>
              r == Failure(ParseInput(raw).issues) && |r.issues| > 0 && unchanged(store)
    ensures ParseInput(raw).Success? ==>
              var input := ParseInput(raw).value;
              && r.Success?
              && r.value == Recipe(old(store.nextRecipeId), RecordData(input, userId))
              && store.recipes == old(store.recipes) + [r.value]
              && store.nextRecipeId == old(store.nextRecipeId) + 1
              && store.nextIngredientId == old(store.nextIngredientId) + |input.ingredients|
              && store.ingredients == old(store.ingredients)
                                      + IngredientRows(input.ingredients, r.value.id, old(store.nextIngredientId))
              && store.IngredientsOf(r.value.id) == input.ingredients
  {
    var parsed := ParseInput(raw);
    if parsed.Failure? {
      RejectionExplained(raw);
      return Failure(parsed.issues);
    }
    var recipe := store.Insert(RecordData(parsed.value, userId), parsed.value.ingredients);
    return Success(recipe);
  }
}
