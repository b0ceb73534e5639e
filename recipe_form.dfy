/** The schema of the "Add recipe" form (formSchema in src/pages/new.tsx):
    which raw form values it accepts and the normalised values it produces. */
module RecipeForm {
  import opened JsStrings
  import opened JsValues
  import opened Schemas

  const NameMessage := "The recipe name must be at least 2 characters."
  const DescriptionMessage := "The description must be at least 3 characters."
  const DietMessage := "The diet field must have at least 2 characters."
  const YieldMessage := "The yield field must be have least 1 characters."
  const InstructionMessage := "The instruction field must have at least 3 characters."
  const NoIngredientMessage := "Recipe must contain at least 1 ingredient."
  const FatContentMessage := "The fatcontent field must have at least 1 characters."
  const MealTypeMessage := "The mealtype field must have at least 3 characters."
  const PositiveMessage := "Value must be positive number."
  const WholeMessage := "Value must be a whole number."
  /** zod's default message of a failed min(1) on a string. */
  const BlankIngredientMessage := "String must contain at least 1 character(s)"
  /** zod's default message when no alternative of an or(...) accepts the value. */
  const InvalidInputMessage := "Invalid input"

  /** The form's fields, in the order the schema lists them. */
  datatype Field =
    | Name | Description | Diet | Yield | Instruction | Ingredients
    | Preptime | Fatcontent | Calories | Cooktime | Mealtype
  {
    /** The field's key in the form's values. */
    function Key(): string {
      match this
      case Name => "name"
      case Description => "description"
      case Diet => "diet"
      case Yield => "yield"
      case Instruction => "instruction"
      case Ingredients => "ingredients"
      case Preptime => "preptime"
      case Fatcontent => "fatcontent"
      case Calories => "calories"
      case Cooktime => "cooktime"
      case Mealtype => "mealtype"
    }
  }

  /** z.string().min(min, { message }): a string of at least min characters,
      passed through unchanged. */
  function CheckText(v: Value, min: nat, message: string): (r: Checked<string>)
    ensures r.Pass? <==> v.Str? && |v.s| >= min
    ensures r.Pass? ==> r.value == v.s
    ensures r.Fail? ==> r.messages == (if v.Str? then [message] else [TypeMessage("string", v)])
  {
    match ExpectString(v)
    case Fail(ms) => Fail(ms)
    case Pass(s) => if |s| >= min then Pass(s) else Fail([message])
  }

  /** The ingredient preprocessing:
      String(val).trim().split('\n').filter((s) => !!s === true). */
  function IngredientLines(v: Value): (lines: seq<string>)
    ensures |lines| <= Occurrences(Trim(ToJsString(v)), '\n') + 1
    ensures forall i :: 0 <= i < |lines| ==> lines[i] != "" && '\n' !in lines[i]
  {
    NonEmpty(Split(Trim(ToJsString(v)), '\n'))
  }

  /** The non-empty strings of parts, in their order. */
  function NonEmpty(parts: seq<string>): (kept: seq<string>)
    ensures |kept| <= |parts|
    ensures forall i :: 0 <= i < |kept| ==> kept[i] != "" && kept[i] in parts
  {
    if |parts| == 0 then []
    else (if parts[0] == "" then [] else [parts[0]]) + NonEmpty(parts[1..])
  }

  /** The filter keeps exactly the non-empty strings. */
  lemma {:induction false} NonEmptyMembers(parts: seq<string>, x: string)
    ensures x in NonEmpty(parts) <==> x in parts && x != ""
  {
    if |parts| > 0 {
      NonEmptyMembers(parts[1..], x);
      assert parts == [parts[0]] + parts[1..];
    }
  }

  /** Filtering a concatenation filters each part: the filter keeps the
      relative order of what it keeps. */
  lemma {:induction false} NonEmptyAppend(a: seq<string>, b: seq<string>)
    ensures NonEmpty(a + b) == NonEmpty(a) + NonEmpty(b)
  {
    if |a| > 0 {
      assert (a + b)[1..] == a[1..] + b;
      NonEmptyAppend(a[1..], b);
    } else {
      assert a + b == b;
    }
  }

  /** Each line trimmed, as z.string().trim() does to every element. */
  function TrimEach(lines: seq<string>): (trimmed: seq<string>)
    ensures |trimmed| == |lines|
    ensures forall i :: 0 <= i < |lines| ==> trimmed[i] == Trim(lines[i])
  {
    seq(|lines|, i requires 0 <= i < |lines| => Trim(lines[i]))
  }

  /** One min(1) message per empty element. */
  function BlankMessages(elements: seq<string>): (ms: seq<string>)
    ensures |ms| <= |elements|
    ensures ms == [] <==> forall i :: 0 <= i < |elements| ==> elements[i] != ""
    ensures forall i :: 0 <= i < |ms| ==> ms[i] == BlankIngredientMessage
  {
    if |elements| == 0 then []
    else (if elements[0] == "" then [BlankIngredientMessage] else []) + BlankMessages(elements[1..])
  }

  /** The ingredients field: the preprocessed lines, each checked by
      z.string().trim().min(1), the list by .array().nonempty(...). The
      accepted list is the trimmed lines; it is accepted exactly when there is
      a line and no line is white space only. */
  function CheckIngredients(v: Value): (r: Checked<seq<string>>)
    ensures var lines := IngredientLines(v);
            r.Pass? <==> lines != [] && forall i :: 0 <= i < |lines| ==> !AllWhitespace(lines[i])
    ensures r.Pass? ==> r.value == TrimEach(IngredientLines(v))
    ensures IngredientLines(v) == [] ==> r == Fail([NoIngredientMessage])
    ensures r.Fail? ==> |r.messages| > 0
  {
    var lines := IngredientLines(v);
    if |lines| == 0 then Fail([NoIngredientMessage])
    else
      var trimmed := TrimEach(lines);
      var blanks := BlankMessages(trimmed);
      if blanks == [] then Pass(trimmed) else Fail(blanks)
  }

  /** An accepted ingredient list: never empty, each ingredient non-empty and
      without white space at either end, and no more ingredients than the
      trimmed text has '\n'-separated pieces. */
  lemma {:induction false} AcceptedIngredientsAreClean(v: Value)
    requires CheckIngredients(v).Pass?
    ensures var r := CheckIngredients(v).value;
            && 0 < |r| <= Occurrences(Trim(ToJsString(v)), '\n') + 1
            && forall i :: 0 <= i < |r| ==>
                 r[i] != "" && !IsWhitespace(r[i][0]) && !IsWhitespace(r[i][|r[i]| - 1])
  {
    var lines := IngredientLines(v);
    assert CheckIngredients(v).value == TrimEach(lines);
    TrimmedLinesAreClean(lines);
  }

  /** Lines none of which is white space only trim to non-empty lines with
      no white space at either end. */
  lemma {:induction false} TrimmedLinesAreClean(lines: seq<string>)
    requires forall i :: 0 <= i < |lines| ==> !AllWhitespace(lines[i])
    ensures var r := TrimEach(lines);
            forall i :: 0 <= i < |r| ==>
              r[i] != "" && !IsWhitespace(r[i][0]) && !IsWhitespace(r[i][|r[i]| - 1])
  {
    var r := TrimEach(lines);
    forall i | 0 <= i < |r| ensures r[i] != "" && !IsWhitespace(r[i][0]) && !IsWhitespace(r[i][|r[i]| - 1]) {
      assert r[i] == Trim(lines[i]) && !AllWhitespace(lines[i]);
    }
  }

  /** The ingredient text yields no lines exactly when it is white space only;
      such a text is rejected with the "at least 1 ingredient" message. */
  lemma {:induction false} BlankIngredientTextRejected(v: Value)
    ensures IngredientLines(v) == [] <==> AllWhitespace(ToJsString(v))
    ensures AllWhitespace(ToJsString(v)) ==> CheckIngredients(v) == Fail([NoIngredientMessage])
  {
    var t := Trim(ToJsString(v));
    if t == [] {
      assert Split(t, '\n') == [""];
    } else {
      FirstPieceNonEmpty(t, '\n');
      var first := Split(t, '\n')[0];
      NonEmptyMembers(Split(t, '\n'), first);
    }
  }

  /** A white-space-only line between two ingredients is not dropped: the
      filter only drops empty lines, and the trimmed line then fails min(1). */
  lemma {:induction false} InnerBlankLineRejected(v: Value, k: nat)
    requires var pieces := Split(Trim(ToJsString(v)), '\n');
             k < |pieces| && pieces[k] != "" && AllWhitespace(pieces[k])
    ensures CheckIngredients(v).Fail?
  {
    var pieces := Split(Trim(ToJsString(v)), '\n');
    assert pieces[k] in pieces;
    NonEmptyMembers(pieces, pieces[k]);
  }

  /** When the trimmed ingredient text is the join of the given pieces, the
      preprocessed lines are the non-empty pieces. */
  lemma {:induction false} LinesFromPieces(v: Value, pieces: seq<string>)
    requires |pieces| > 0 && forall i :: 0 <= i < |pieces| ==> '\n' !in pieces[i]
    requires Join(pieces, '\n') == Trim(ToJsString(v))
    ensures IngredientLines(v) == NonEmpty(pieces)
  {
    SplitJoin(pieces, '\n');
  }

  /** Lines that are non-empty and already trimmed are accepted as they are. */
  lemma {:induction false} TrimmedLinesAccepted(v: Value)
    requires IngredientLines(v) != []
    requires forall i :: 0 <= i < |IngredientLines(v)| ==> Trim(IngredientLines(v)[i]) == IngredientLines(v)[i]
    ensures CheckIngredients(v) == Pass(IngredientLines(v))
  {
    var lines := IngredientLines(v);
    assert TrimEach(lines) == lines;
  }

  // The example lemmas below take their example text as a parameter fixed by
  // a requires, so that the solver reasons about a name for the literal
  // instead of unfolding the literal's characters everywhere.

  /** The line "  " between "a" and "b" makes the whole ingredient text fail. */
  lemma {:induction false} InnerBlankLineExample(text: string)
    requires text == "a\n  \nb"
    ensures CheckIngredients(Str(text)).Fail?
  {
    TrimUnchanged(text);
    var pieces := ["a", "  ", "b"];
    assert Join(pieces, '\n') == text;
    SplitJoin(pieces, '\n');
    InnerBlankLineRejected(Str(text), 1);
  }

  /** Blank lines are dropped from "Pasta\nSalt\n\nOlive oil" and the rest are
      kept in order. */
  lemma {:induction false} PastaIngredients(text: string)
    requires text == "Pasta\nSalt\n\nOlive oil"
    ensures CheckIngredients(Str(text)) == Pass(["Pasta", "Salt", "Olive oil"])
  {
    var pieces := ["Pasta", "Salt", "", "Olive oil"];
    PastaPieces(text, pieces);
    LinesFromPieces(Str(text), pieces);
    PastaKept(pieces);
    TrimUnchanged("Pasta");
    TrimUnchanged("Salt");
    TrimUnchanged("Olive oil");
    TrimmedLinesAccepted(Str(text));
  }

  /** The pieces of the example text. */
  lemma {:induction false} PastaPieces(text: string, pieces: seq<string>)
    requires text == "Pasta\nSalt\n\nOlive oil" && pieces == ["Pasta", "Salt", "", "Olive oil"]
    ensures forall i :: 0 <= i < |pieces| ==> '\n' !in pieces[i]
    ensures Trim(text) == text && Join(pieces, '\n') == text
  {
    TrimUnchanged(text);
    assert pieces[1..][1..][1..] == ["Olive oil"];
    assert Join(pieces[2..], '\n') == "\nOlive oil";
    assert Join(pieces[1..], '\n') == "Salt\n\nOlive oil";
  }

  /** The filter drops the one empty piece of the example. */
  lemma {:induction false} PastaKept(pieces: seq<string>)
    requires pieces == ["Pasta", "Salt", "", "Olive oil"]
    ensures NonEmpty(pieces) == ["Pasta", "Salt", "Olive oil"]
  {
    assert pieces[1..][1..][1..] == ["Olive oil"];
    assert NonEmpty(pieces[2..]) == ["Olive oil"];
  }

  /** A missing ingredients field is converted by String(undefined) and so is
      accepted as the single ingredient "undefined". */
  lemma {:induction false} MissingIngredientsBecomeUndefined(word: string)
    requires word == "undefined"
    ensures CheckIngredients(Undefined) == Pass([word])
  {
    TrimUnchanged(word);
    LinesFromPieces(Undefined, [word]);
    assert NonEmpty([word]) == [word];
    TrimmedLinesAccepted(Undefined);
  }

  /** The form's initial value [] renders as "" and is rejected. */
  lemma {:induction false} InitialIngredientsRejected()
    ensures CheckIngredients(Arr([])) == Fail([NoIngredientMessage])
  {
    assert ToJsString(Arr([])) == "";
    assert Split("", '\n') == [""];
  }

  /** The number a numeric field's value stands for: a number as it is, a
      string as JavaScript's Number(...) reads it (toNumber), nothing for any
      other value. */
  function Denoted(v: Value, toNumber: string -> Number): (d: Option<Number>)
    ensures d.Some? <==> v.Num? || v.Str?
    ensures v.Num? ==> d == Some(v.n)
    ensures v.Str? ==> d == Some(toNumber(v.s))
  {
    match v
    case Num(n) => Some(n)
    case Str(s) => Some(toNumber(s))
    case _ => None
  }

  /** .nonnegative().int() on a number other than NaN: every failing check
      adds its message. */
  function CheckWhole(n: Number): (r: Checked<int>)
    requires !n.NaN?
    ensures r.Pass? <==> n.Int? && n.i >= 0
    ensures r.Pass? ==> r.value == n.i
    ensures r.Fail? ==> (PositiveMessage in r.messages <==> n.IsNegative())
                        && (WholeMessage in r.messages <==> !n.Int?)
  {
    if n.Int? && n.i >= 0 then Pass(n.i)
    else Fail((if n.IsNegative() then [PositiveMessage] else []) + (if n.Int? then [] else [WholeMessage]))
  }

  /** z.number().nonnegative().int().or(z.string())
        .pipe(z.coerce.number().nonnegative().int()),
      where toNumber stands for Number(string). The field is accepted exactly
      when its value stands for a non-negative integer, which is then the
      output, whether it was given as a number or as a string. */
  function CheckNumberOrString(v: Value, toNumber: string -> Number): (r: Checked<int>)
    ensures var d := Denoted(v, toNumber);
            r.Pass? <==> d.Some? && d.value.Int? && d.value.i >= 0
    ensures r.Pass? ==> r.value >= 0 && Denoted(v, toNumber) == Some(Int(r.value))
    ensures r.Fail? ==> |r.messages| > 0
  {
    match v
    case Num(n) =>
      // A number: either the number branch passes, so the pipe re-checks the
      // same number, or its failed checks are the union's result.
      if n.NaN? then Fail([InvalidInputMessage]) else CheckWhole(n)
    case Str(s) =>
      // A string: the string branch passes and the pipe coerces it.
      var n := toNumber(s);
      if n.NaN? then Fail([TypeMessage("number", Num(NaN))]) else CheckWhole(n)
    case _ => Fail([InvalidInputMessage])
  }

  /** A negative number is rejected with the "positive number" message and a
      fraction with the "whole number" message, given as a number or as a
      string that reads as it. */
  lemma {:induction false} NegativeOrFractionRejected(v: Value, toNumber: string -> Number)
    requires var d := Denoted(v, toNumber); d.Some? && !d.value.NaN? && (d.value.IsNegative() || !d.value.Int?)
    ensures var r := CheckNumberOrString(v, toNumber);
            && r.Fail?
            && (PositiveMessage in r.messages <==> Denoted(v, toNumber).value.IsNegative())
            && (WholeMessage in r.messages <==> !Denoted(v, toNumber).value.Int?)
  {
  }

  /** toNumber reads the decimal string s as the number it denotes. */
  predicate ReadsDecimal(toNumber: string -> Number, s: string) {
    IsDecimal(s) && toNumber(s) == Int(DecimalValue(s))
  }

  /** A whole number typed as its decimal text is accepted with the same value
      as the number itself. */
  lemma {:induction false} DecimalTextAgreesWithNumber(n: nat, toNumber: string -> Number)
    requires toNumber(NatToDecimal(n)) == Int(n)
    ensures CheckNumberOrString(Str(NatToDecimal(n)), toNumber) == CheckNumberOrString(Num(Int(n)), toNumber)
    ensures CheckNumberOrString(Num(Int(n)), toNumber) == Pass(n)
  {
  }

  /** Any decimal text is accepted as the whole number it denotes, when
      Number(...) reads decimals correctly. */
  lemma {:induction false} DecimalTextAccepted(s: string, toNumber: string -> Number)
    requires ReadsDecimal(toNumber, s)
    ensures CheckNumberOrString(Str(s), toNumber) == Pass(DecimalValue(s))
    ensures CheckNumberOrString(Str(s), toNumber) == CheckNumberOrString(Num(Int(DecimalValue(s))), toNumber)
  {
  }

  /** The same field wrapped in z.optional(...), for preptime and calories. */
  function CheckOptionalNumber(v: Value, toNumber: string -> Number): (r: Checked<Option<int>>)
    ensures v.Undefined? ==> r == Pass(None)
    ensures !v.Undefined? ==> (r.Pass? <==> CheckNumberOrString(v, toNumber).Pass?)
    ensures !v.Undefined? && r.Pass? ==> r.value == Some(CheckNumberOrString(v, toNumber).value)
    ensures r.Fail? ==> |r.messages| > 0
  {
    Optional(v, (x: Value) => CheckNumberOrString(x, toNumber))
  }

  /** z.optional(z.string().min(1, ...)), for fatcontent. */
  function CheckFatContent(v: Value): (r: Checked<Option<string>>)
    ensures r.Pass? <==> v.Undefined? || (v.Str? && |v.s| >= 1)
    ensures r.Pass? ==> r.value == (if v.Undefined? then None else Some(v.s))
    ensures r.Fail? ==> |r.messages| > 0
  {
    Optional(v, (x: Value) => CheckText(x, 1, FatContentMessage))
  }

  /** An empty fat content is not treated as absent: it fails min(1). */
  lemma {:induction false} EmptyFatContentRejected()
    ensures CheckFatContent(Str("")) == Fail([FatContentMessage])
  {
    assert CheckText(Str(""), 1, FatContentMessage) == Fail([FatContentMessage]);
  }

  /** The values the form hands on when the schema accepts it. */
  datatype RecipeFormValues = RecipeFormValues(
    name: string,
    description: string,
    diet: string,
    recipeYield: string,
    instruction: string,
    ingredients: seq<string>,
    preptime: Option<int>,
    fatcontent: Option<string>,
    calories: Option<int>,
    cooktime: int,
    mealtype: string)

  /** The value the form holds for a field. */
  function ValueOf(form: map<string, Value>, f: Field): Value {
    Get(form, f.Key())
  }

  /** The fields in the order the schema lists them, which is the order
      their issues are reported in. */
  const Fields: seq<Field> :=
    [Name, Description, Diet, Yield, Instruction, Ingredients, Preptime, Fatcontent, Calories, Cooktime, Mealtype]

  /** Every field's own outcome, before the object schema combines them. */
  datatype FieldOutcomes = FieldOutcomes(
    name: Checked<string>,
    description: Checked<string>,
    diet: Checked<string>,
    recipeYield: Checked<string>,
    instruction: Checked<string>,
    ingredients: Checked<seq<string>>,
    preptime: Checked<Option<int>>,
    fatcontent: Checked<Option<string>>,
    calories: Checked<Option<int>>,
    cooktime: Checked<int>,
    mealtype: Checked<string>)
  {
    /** The issues one field contributes. */
    function IssuesOf(f: Field): seq<Issue<Field>> {
      match f
      case Name => IssuesAt(f, name)
      case Description => IssuesAt(f, description)
      case Diet => IssuesAt(f, diet)
      case Yield => IssuesAt(f, recipeYield)
      case Instruction => IssuesAt(f, instruction)
      case Ingredients => IssuesAt(f, ingredients)
      case Preptime => IssuesAt(f, preptime)
      case Fatcontent => IssuesAt(f, fatcontent)
      case Calories => IssuesAt(f, calories)
      case Cooktime => IssuesAt(f, cooktime)
      case Mealtype => IssuesAt(f, mealtype)
    }

    /** Whether every field passed. */
    predicate AllPass() {
      && name.Pass? && description.Pass? && diet.Pass? && recipeYield.Pass? && instruction.Pass?
      && ingredients.Pass? && preptime.Pass? && fatcontent.Pass? && calories.Pass? && cooktime.Pass?
      && mealtype.Pass?
    }

    /** Every failing field gives at least one message. */
    predicate Explained() {
      && (name.Fail? ==> |name.messages| > 0)
      && (description.Fail? ==> |description.messages| > 0)
      && (diet.Fail? ==> |diet.messages| > 0)
      && (recipeYield.Fail? ==> |recipeYield.messages| > 0)
      && (instruction.Fail? ==> |instruction.messages| > 0)
      && (ingredients.Fail? ==> |ingredients.messages| > 0)
      && (preptime.Fail? ==> |preptime.messages| > 0)
      && (fatcontent.Fail? ==> |fatcontent.messages| > 0)
      && (calories.Fail? ==> |calories.messages| > 0)
      && (cooktime.Fail? ==> |cooktime.messages| > 0)
      && (mealtype.Fail? ==> |mealtype.messages| > 0)
    }
  }

  /** The issues of the given fields, in that order. */
  function IssuesFor(o: FieldOutcomes, fields: seq<Field>): seq<Issue<Field>> {
    if |fields| == 0 then [] else o.IssuesOf(fields[0]) + IssuesFor(o, fields[1..])
  }

  /** Each field checked by its own schema. */
  function CheckFields(form: map<string, Value>, toNumber: string -> Number): (o: FieldOutcomes)
    ensures o.Explained()
  {
    FieldOutcomes(
      CheckText(ValueOf(form, Name), 2, NameMessage),
      CheckText(ValueOf(form, Description), 3, DescriptionMessage),
      CheckText(ValueOf(form, Diet), 2, DietMessage),
      CheckText(ValueOf(form, Yield), 1, YieldMessage),
      CheckText(ValueOf(form, Instruction), 3, InstructionMessage),
      CheckIngredients(ValueOf(form, Ingredients)),
      CheckOptionalNumber(ValueOf(form, Preptime), toNumber),
      CheckFatContent(ValueOf(form, Fatcontent)),
      CheckOptionalNumber(ValueOf(form, Calories), toNumber),
      CheckNumberOrString(ValueOf(form, Cooktime), toNumber),
      CheckText(ValueOf(form, Mealtype), 3, MealTypeMessage))
  }

  /** The object schema's verdict on its fields' outcomes: the parsed values
      when every field passed, and otherwise the issues of all fields in the
      schema's order. */
  function Combine(o: FieldOutcomes): (r: Parsed<RecipeFormValues, Field>)
    ensures r.Failure? ==> r.issues == IssuesFor(o, Fields)
  {
    if o.AllPass() then
      Success(RecipeFormValues(o.name.value, o.description.value, o.diet.value, o.recipeYield.value,
                               o.instruction.value, o.ingredients.value, o.preptime.value,
                               o.fatcontent.value, o.calories.value, o.cooktime.value, o.mealtype.value))
    else
      Failure(IssuesFor(o, Fields))
  }

  /** The issues a field of the form gets on its own. */
  function FieldIssues(form: map<string, Value>, f: Field, toNumber: string -> Number): seq<Issue<Field>> {
    CheckFields(form, toNumber).IssuesOf(f)
  }

  /** formSchema.parse. Keys the schema does not list are dropped. When the
      form is accepted its text fields are handed on unchanged, its
      ingredients are the trimmed non-empty lines and its cooking time is a
      whole number of at least 0; otherwise every issue of every field is
      reported, in the schema's order. */
  function ValidateForm(form: map<string, Value>, toNumber: string -> Number): (r: Parsed<RecipeFormValues, Field>)
    ensures r.Success? ==>
              && ValueOf(form, Name) == Str(r.value.name)
              && ValueOf(form, Description) == Str(r.value.description)
              && ValueOf(form, Diet) == Str(r.value.diet)
              && ValueOf(form, Yield) == Str(r.value.recipeYield)
              && ValueOf(form, Instruction) == Str(r.value.instruction)
              && ValueOf(form, Mealtype) == Str(r.value.mealtype)
              && r.value.ingredients == TrimEach(IngredientLines(ValueOf(form, Ingredients)))
              && r.value.cooktime >= 0
              && Denoted(ValueOf(form, Cooktime), toNumber) == Some(Int(r.value.cooktime))
    ensures r.Success? ==>
              && (r.value.preptime.None? <==> ValueOf(form, Preptime).Undefined?)
              && (r.value.preptime.Some? ==>
                    r.value.preptime.value >= 0
                    && Denoted(ValueOf(form, Preptime), toNumber) == Some(Int(r.value.preptime.value)))
              && (r.value.calories.None? <==> ValueOf(form, Calories).Undefined?)
              && (r.value.calories.Some? ==>
                    r.value.calories.value >= 0
                    && Denoted(ValueOf(form, Calories), toNumber) == Some(Int(r.value.calories.value)))
              && (r.value.fatcontent.None? <==> ValueOf(form, Fatcontent).Undefined?)
              && (r.value.fatcontent.Some? ==> ValueOf(form, Fatcontent) == Str(r.value.fatcontent.value))
    ensures r.Failure? ==> r.issues == IssuesFor(CheckFields(form, toNumber), Fields)
  {
    Combine(CheckFields(form, toNumber))
  }

  /** A field contributes issues exactly when it fails, when a failure always
      gives a message. */
  lemma {:induction false} NoIssuesIffPass(o: FieldOutcomes, f: Field)
    requires o.Explained()
    ensures o.IssuesOf(f) == [] <==> match f
      case Name => o.name.Pass?
      case Description => o.description.Pass?
      case Diet => o.diet.Pass?
      case Yield => o.recipeYield.Pass?
      case Instruction => o.instruction.Pass?
      case Ingredients => o.ingredients.Pass?
      case Preptime => o.preptime.Pass?
      case Fatcontent => o.fatcontent.Pass?
      case Calories => o.calories.Pass?
      case Cooktime => o.cooktime.Pass?
      case Mealtype => o.mealtype.Pass?
  {
    if o.IssuesOf(f) != [] {
      assert o.IssuesOf(f)[0].path == f;
    }
  }

  /** The object schema accepts exactly when no field contributes an issue. */
  lemma {:induction false} CombineAcceptedIff(o: FieldOutcomes)
    requires o.Explained()
    ensures Combine(o).Success? <==> forall f: Field :: o.IssuesOf(f) == []
  {
    forall f: Field ensures o.AllPass() ==> o.IssuesOf(f) == [] {
      NoIssuesIffPass(o, f);
    }
    if !o.AllPass() {
      NoIssuesIffPass(o, Name); NoIssuesIffPass(o, Description); NoIssuesIffPass(o, Diet);
      NoIssuesIffPass(o, Yield); NoIssuesIffPass(o, Instruction); NoIssuesIffPass(o, Ingredients);
      NoIssuesIffPass(o, Preptime); NoIssuesIffPass(o, Fatcontent); NoIssuesIffPass(o, Calories);
      NoIssuesIffPass(o, Cooktime); NoIssuesIffPass(o, Mealtype);
    }
  }

  /** An issue of a concatenation is an issue of one of its parts. */
  lemma {:induction false} ReportedAppend(a: seq<Issue<Field>>, b: seq<Issue<Field>>, f: Field)
    ensures Reported(a + b, f) <==> Reported(a, f) || Reported(b, f)
  {
    var all := a + b;
    if Reported(all, f) {
      var i :| 0 <= i < |all| && all[i].path == f;
      if i >= |a| {
        assert b[i - |a|].path == f;
      }
    }
    if Reported(a, f) {
      var j :| 0 <= j < |a| && a[j].path == f;
      assert all[j].path == f;
    }
    if Reported(b, f) {
      var j :| 0 <= j < |b| && b[j].path == f;
      assert all[|a| + j].path == f;
    }
  }

  /** A field's own issues are all about that field. */
  lemma {:induction false} ReportedOwn(o: FieldOutcomes, g: Field, f: Field)
    ensures Reported(o.IssuesOf(g), f) <==> g == f && o.IssuesOf(g) != []
  {
    var issues := o.IssuesOf(g);
    if issues != [] {
      assert issues[0].path == g;
    }
  }

  /** Some issue of the listed fields is about f exactly when f is listed and
      has issues of its own. */
  lemma {:induction false} ReportedFor(o: FieldOutcomes, fields: seq<Field>, f: Field)
    ensures Reported(IssuesFor(o, fields), f) <==> f in fields && o.IssuesOf(f) != []
  {
    if |fields| > 0 {
      ReportedFor(o, fields[1..], f);
      ReportedAppend(o.IssuesOf(fields[0]), IssuesFor(o, fields[1..]), f);
      ReportedOwn(o, fields[0], f);
      assert fields == [fields[0]] + fields[1..];
    }
  }

  /** A rejection reports exactly the fields that fail. */
  lemma {:induction false} CombineReportsFailures(o: FieldOutcomes, f: Field)
    requires Combine(o).Failure?
    ensures Reported(Combine(o).issues, f) <==> o.IssuesOf(f) != []
  {
    ReportedFor(o, Fields, f);
    assert f in Fields by {
      match f
      case Name => assert Fields[0] == f;
      case Description => assert Fields[1] == f;
      case Diet => assert Fields[2] == f;
      case Yield => assert Fields[3] == f;
      case Instruction => assert Fields[4] == f;
      case Ingredients => assert Fields[5] == f;
      case Preptime => assert Fields[6] == f;
      case Fatcontent => assert Fields[7] == f;
      case Calories => assert Fields[8] == f;
      case Cooktime => assert Fields[9] == f;
      case Mealtype => assert Fields[10] == f;
    }
  }

  /** The form is accepted exactly when no field has an issue of its own. */
  lemma {:induction false} FormAcceptedIff(form: map<string, Value>, toNumber: string -> Number)
    ensures ValidateForm(form, toNumber).Success? <==> forall f: Field :: FieldIssues(form, f, toNumber) == []
  {
    var o := CheckFields(form, toNumber);
    assert ValidateForm(form, toNumber) == Combine(o);
    assert forall f: Field :: FieldIssues(form, f, toNumber) == o.IssuesOf(f);
    CombineAcceptedIff(o);
  }

  /** A rejected form reports exactly the fields that fail on their own. */
  lemma {:induction false} RejectedFieldsReported(form: map<string, Value>, toNumber: string -> Number, f: Field)
    requires ValidateForm(form, toNumber).Failure?
    ensures Reported(ValidateForm(form, toNumber).issues, f) <==> FieldIssues(form, f, toNumber) != []
  {
    var o := CheckFields(form, toNumber);
    assert ValidateForm(form, toNumber) == Combine(o);
    CombineReportsFailures(o, f);
  }

  /** A field with issues of its own makes the object schema reject, and is
      reported. */
  lemma {:induction false} FailingFieldReported(o: FieldOutcomes, f: Field)
    requires o.IssuesOf(f) != []
    ensures Combine(o).Failure? && Reported(Combine(o).issues, f)
  {
    if o.AllPass() {
      match f
      case Name => case Description => case Diet => case Yield => case Instruction =>
      case Ingredients => case Preptime => case Fatcontent => case Calories => case Cooktime =>
      case Mealtype =>
    }
    CombineReportsFailures(o, f);
  }

  /** The form's initial ingredients value [] blocks submission: the form is
      rejected and the ingredients field is reported. */
  lemma {:induction false} UntouchedIngredientsBlockSubmit(form: map<string, Value>, toNumber: string -> Number)
    requires ValueOf(form, Ingredients) == Arr([])
    ensures ValidateForm(form, toNumber).Failure?
    ensures Reported(ValidateForm(form, toNumber).issues, Ingredients)
  {
    var o := CheckFields(form, toNumber);
    InitialIngredientsRejected();
    assert o.ingredients.Fail?;
    NoIssuesIffPass(o, Ingredients);
    FailingFieldReported(o, Ingredients);
  }

  /** Fat content is optional, but its empty initial value "" is not absent:
      it fails min(1), so the form is rejected and fat content reported. */
  lemma {:induction false} EmptyFatContentBlocksSubmit(form: map<string, Value>, toNumber: string -> Number)
    requires ValueOf(form, Fatcontent) == Str("")
    ensures ValidateForm(form, toNumber).Failure?
    ensures Reported(ValidateForm(form, toNumber).issues, Fatcontent)
  {
    var o := CheckFields(form, toNumber);
    EmptyFatContentRejected();
    assert o.fatcontent.Fail?;
    NoIssuesIffPass(o, Fatcontent);
    FailingFieldReported(o, Fatcontent);
  }
}
