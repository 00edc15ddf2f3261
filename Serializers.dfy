/** The write side of backend/api/serializers.py: `RecipeSerializer.validate`
    turns a request body into validated data or the first error it meets,
    `create` and `update` store that data, and
    `SubscriptionsSerializer.validate` guards a new subscription. */
module Serializers {
  import opened Common
  import opened Text
  import opened Models

  /** An id or amount as the JSON request carries it. */
  datatype Raw = Int(n: int) | Str(s: string) | Null

  /** The outcome of Python's `int(v)`. */
  datatype IntConversion = Converted(n: int) | ValueError | TypeError

  /** `int(v)`: an integer stays itself, a string is parsed (ValueError when
      it is not a decimal numeral), and `None` is a TypeError. */
  function PyInt(v: Raw): IntConversion
  {
    match v
    case Int(n) => Converted(n)
    case Str(s) => (match ParseInt(s) case Some(n) => Converted(n) case None => ValueError)
    case Null => TypeError
  }

  /** A number sent as its decimal text converts to that number. */
  lemma PyIntOfDecimal(n: nat)
    ensures PyInt(Str(DecimalString(n))) == Converted(n)
  {
    DecimalStringRoundTrip(n);
  }

  /** One element of `ingredients`; a key the client left out is `None`. */
  datatype IngredientEntry = IngredientEntry(id: Option<Raw>, amount: Option<Raw>)

  /** The request body. `cooking_time` has already passed its field
      validators when `validate` runs; `tags` and `ingredients` are read from
      the raw body, `None` when absent. */
  datatype RecipeInput = RecipeInput(
    name: string,
    text: string,
    cookingTime: nat,
    image: Option<string>,
    tags: Option<seq<Raw>>,
    ingredients: Option<seq<IngredientEntry>>)

  /** What `validate` raises. `Unhandled` is an exception the method does not
      catch (a TypeError from `int(None)`, a KeyError for a missing key, a
      ValueError from `int(amount)`), i.e. a server error rather than a 400. */
  datatype RecipeError =
    | ImageRequired                 // field `image`
    | TagsRequired                  // non-field
    | TagNotFound(shown: Raw)       // field `tags`; the id as the message shows it
    | DuplicateTags                 // field `tags`
    | IngredientsRequired           // non-field
    | IngredientNotFound(shown: Raw)  // field `ingredients`
    | DuplicateIngredients          // field `ingredients`
    | NonPositiveAmount             // non-field
    | Unhandled

  /** The validated data `create` and `update` receive: the distinct tags
      `Tag.objects.filter(id__in=...)` selects, the `(ingredient, amount)`
      pairs in request order, and the requesting user as author. */
  datatype ValidRecipe = ValidRecipe(
    name: string,
    text: string,
    cookingTime: nat,
    image: string,
    tags: seq<TagId>,
    ingredients: seq<IngredientAmount>,
    author: UserId)

  /** A tag id survives the loop: it converts and names an existing tag. */
  predicate TagFound(v: Raw, known: set<TagId>)
  {
    PyInt(v).Converted? && PyInt(v).n in known
  }

  /** The error the tag loop raises at an id that does not survive: the
      message shows the converted id, or the raw one when `int` failed. */
  function TagFailure(v: Raw, known: set<TagId>): (e: RecipeError)
    requires !TagFound(v, known)
    ensures e == Unhandled <==> v.Null?
    ensures !v.Null? ==> e == TagNotFound(if PyInt(v).Converted? then Int(PyInt(v).n) else v)
    ensures e.TagNotFound? ==> PyInt(e.shown) == PyInt(v)
  {
    match PyInt(v)
    case TypeError => Unhandled
    case ValueError => TagNotFound(v)
    case Converted(n) => TagNotFound(Int(n))
  }

  /** An ingredient id survives its loop: the key is there, converts and
      names an existing ingredient. */
  predicate IngredientFound(e: IngredientEntry, known: set<IngredientId>)
  {
    e.id.Some? && PyInt(e.id.value).Converted? && PyInt(e.id.value).n in known
  }

  function IngredientFailure(e: IngredientEntry, known: set<IngredientId>): (err: RecipeError)
    requires !IngredientFound(e, known)
    ensures err == Unhandled <==> e.id.None? || e.id.value.Null?
    ensures e.id.Some? && !e.id.value.Null? ==>
              err == IngredientNotFound(if PyInt(e.id.value).Converted? then Int(PyInt(e.id.value).n) else e.id.value)
    ensures err.IngredientNotFound? ==> PyInt(err.shown) == PyInt(e.id.value)
  {
    if e.id.None? then Unhandled
    else
      match PyInt(e.id.value)
      case TypeError => Unhandled
      case ValueError => IngredientNotFound(e.id.value)
      case Converted(n) => IngredientNotFound(Int(n))
  }

  /** An amount survives its loop: the key is there, converts and is positive. */
  predicate AmountPositive(e: IngredientEntry)
  {
    e.amount.Some? && PyInt(e.amount.value).Converted? && PyInt(e.amount.value).n > 0
  }

  function AmountFailure(e: IngredientEntry): (err: RecipeError)
    requires !AmountPositive(e)
    ensures err == NonPositiveAmount <==> e.amount.Some? && PyInt(e.amount.value).Converted?
    ensures err == Unhandled <==> !(e.amount.Some? && PyInt(e.amount.value).Converted?)
  {
    if e.amount.Some? && PyInt(e.amount.value).Converted? then NonPositiveAmount else Unhandled
  }

  /** The converted tag ids, in request order. */
  function TagIds(raws: seq<Raw>): (ids: seq<TagId>)
    requires forall i :: 0 <= i < |raws| ==> PyInt(raws[i]).Converted?
    ensures |ids| == |raws|
    ensures forall i :: 0 <= i < |raws| ==> PyInt(raws[i]) == Converted(ids[i])
  {
    seq(|raws|, i requires 0 <= i < |raws| && PyInt(raws[i]).Converted? => PyInt(raws[i]).n)
  }

  /** The ids the loop writes back with `ingredient['id'] = int(...)`. */
  function IngredientIds(entries: seq<IngredientEntry>): (ids: seq<IngredientId>)
    requires forall i :: 0 <= i < |entries| ==> entries[i].id.Some? && PyInt(entries[i].id.value).Converted?
    ensures |ids| == |entries|
    ensures forall i :: 0 <= i < |entries| ==> PyInt(entries[i].id.value) == Converted(ids[i])
  {
    seq(|entries|, i requires 0 <= i < |entries| && entries[i].id.Some? && PyInt(entries[i].id.value).Converted? =>
      PyInt(entries[i].id.value).n)
  }

  /** `valid_ingredients.values()`: each entry's ingredient with its amount. */
  function Amounts(entries: seq<IngredientEntry>, ids: seq<IngredientId>): (r: seq<IngredientAmount>)
    requires |ids| == |entries|
    requires forall i :: 0 <= i < |entries| ==> AmountPositive(entries[i])
    ensures |r| == |entries|
    ensures forall i :: 0 <= i < |entries| ==>
              && entries[i].amount.Some?
              && r[i].ingredient == ids[i]
              && PyInt(entries[i].amount.value) == Converted(r[i].amount)
              && r[i].amount > 0
  {
    seq(|entries|, i requires 0 <= i < |entries| && AmountPositive(entries[i]) =>
      IngredientAmount(ids[i], PyInt(entries[i].amount.value).n))
  }

  /** `RecipeSerializer.validate`: the checks in the order the method makes
      them, each raising at the first element that fails it. */
  function RecipeValidation(input: RecipeInput, knownTags: set<TagId>, knownIngredients: set<IngredientId>, actor: UserId)
    : Result<ValidRecipe, RecipeError>
  {
    if input.image.None? || input.image.value == "" then Failure(ImageRequired)
    else if input.tags.None? || input.tags.value == [] then Failure(TagsRequired)
    else
      var raws := input.tags.value;
      var t := FirstFailing(raws, (v: Raw) => TagFound(v, knownTags));
      if t < |raws| then Failure(TagFailure(raws[t], knownTags))
      else if !NoDuplicates(raws) then Failure(DuplicateTags)
      else if input.ingredients.None? || input.ingredients.value == [] then Failure(IngredientsRequired)
      else
        var entries := input.ingredients.value;
        var k := FirstFailing(entries, (e: IngredientEntry) => IngredientFound(e, knownIngredients));
        if k < |entries| then Failure(IngredientFailure(entries[k], knownIngredients))
        else
          var ids := IngredientIds(entries);
          if !NoDuplicates(ids) then Failure(DuplicateIngredients)
          else
            var a := FirstFailing(entries, AmountPositive);
            if a < |entries| then Failure(AmountFailure(entries[a]))
            else
              Success(ValidRecipe(input.name, input.text, input.cookingTime, input.image.value,
                                  Distinct(TagIds(raws)), Amounts(entries, ids), actor))
  }

  /** The checks of `validate`, each loop stopping at its first failure. */
  method ValidateRecipe(input: RecipeInput, knownTags: set<TagId>, knownIngredients: set<IngredientId>, actor: UserId)
    returns (r: Result<ValidRecipe, RecipeError>)
    ensures r == RecipeValidation(input, knownTags, knownIngredients, actor)
  {
    if input.image.None? || input.image.value == "" {
      return Failure(ImageRequired);
    }
    var tagIds := input.tags;
    if tagIds.None? || tagIds.value == [] {
      return Failure(TagsRequired);
    }
    var raws := tagIds.value;
    var i := 0;
    while i < |raws|
      invariant 0 <= i <= |raws|
      invariant forall j :: 0 <= j < i ==> TagFound(raws[j], knownTags)
    {
      var tagId := PyInt(raws[i]);
      if tagId.TypeError? {
        return Failure(Unhandled);
      } else if tagId.ValueError? {
        return Failure(TagNotFound(raws[i]));
      } else if tagId.n !in knownTags {
        return Failure(TagNotFound(Int(tagId.n)));
      }
      i := i + 1;
    }
    ElementsCardinality(raws);
    if |Elements(raws)| != |raws| {
      return Failure(DuplicateTags);
    }

    var ingredients := input.ingredients;
    if ingredients.None? || ingredients.value == [] {
      return Failure(IngredientsRequired);
    }
    var entries := ingredients.value;
    var ids: seq<IngredientId> := [];
    i := 0;
    while i < |entries|
      invariant 0 <= i <= |entries| && |ids| == i
      invariant forall j :: 0 <= j < i ==> IngredientFound(entries[j], knownIngredients)
      invariant forall j :: 0 <= j < i ==> PyInt(entries[j].id.value) == Converted(ids[j])
    {
      if entries[i].id.None? {
        return Failure(Unhandled);
      }
      var id := PyInt(entries[i].id.value);
      if id.TypeError? {
        return Failure(Unhandled);
      } else if id.ValueError? {
        return Failure(IngredientNotFound(entries[i].id.value));
      } else if id.n !in knownIngredients {
        return Failure(IngredientNotFound(Int(id.n)));
      }
      ids := ids + [id.n];
      i := i + 1;
    }
    assert ids == IngredientIds(entries);
    ElementsCardinality(ids);
    if |Elements(ids)| != |entries| {
      return Failure(DuplicateIngredients);
    }

    var validIngredients: seq<IngredientAmount> := [];
    i := 0;
    while i < |entries|
      invariant 0 <= i <= |entries| && |validIngredients| == i
      invariant forall j :: 0 <= j < i ==> AmountPositive(entries[j])
      invariant forall j :: 0 <= j < i ==> validIngredients[j] == IngredientAmount(ids[j], PyInt(entries[j].amount.value).n)
    {
      if entries[i].amount.None? {
        return Failure(Unhandled);
      }
      var amount := PyInt(entries[i].amount.value);
      if !amount.Converted? {
        return Failure(Unhandled);
      }
      if amount.n <= 0 {
        return Failure(NonPositiveAmount);
      }
      validIngredients := validIngredients + [IngredientAmount(ids[i], amount.n)];
      i := i + 1;
    }
    assert validIngredients == Amounts(entries, ids);
    r := Success(ValidRecipe(input.name, input.text, input.cookingTime, input.image.value,
                             Distinct(TagIds(raws)), validIngredients, actor));
  }

  /** `validate` accepts exactly the bodies that pass every check: an image,
      at least one tag, every tag id converting to an existing tag, no raw id
      repeated, at least one ingredient, every ingredient id present,
      converting and existing, no converted id repeated, and every amount
      present, converting and positive. */
  lemma ValidationAcceptsExactly(input: RecipeInput, knownTags: set<TagId>, knownIngredients: set<IngredientId>, actor: UserId)
    ensures RecipeValidation(input, knownTags, knownIngredients, actor).Success? <==>
              && input.image.Some? && input.image.value != ""
              && input.tags.Some? && input.tags.value != []
              && (forall i :: 0 <= i < |input.tags.value| ==> TagFound(input.tags.value[i], knownTags))
              && NoDuplicates(input.tags.value)
              && input.ingredients.Some? && input.ingredients.value != []
              && (forall i :: 0 <= i < |input.ingredients.value| ==> IngredientFound(input.ingredients.value[i], knownIngredients))
              && NoDuplicates(IngredientIds(input.ingredients.value))
              && (forall i :: 0 <= i < |input.ingredients.value| ==> AmountPositive(input.ingredients.value[i]))
  {
  }

  /** What validated data holds: the requesting user as author, the fields
      passed through, the distinct existing tags the ids name, and one
      positive amount per requested ingredient, each naming a distinct
      existing ingredient. */
  lemma ValidatedContents(input: RecipeInput, knownTags: set<TagId>, knownIngredients: set<IngredientId>, actor: UserId)
    requires RecipeValidation(input, knownTags, knownIngredients, actor).Success?
    ensures var v := RecipeValidation(input, knownTags, knownIngredients, actor).value;
      && v.author == actor
      && v.name == input.name && v.text == input.text && v.cookingTime == input.cookingTime
      && Some(v.image) == input.image
      && NoDuplicates(v.tags)
      && (forall t :: t in v.tags <==> exists i :: 0 <= i < |input.tags.value| && PyInt(input.tags.value[i]) == Converted(t))
      && (forall t :: t in v.tags ==> t in knownTags)
      && |v.ingredients| == |input.ingredients.value|
      && (forall i :: 0 <= i < |v.ingredients| ==>
            && PyInt(input.ingredients.value[i].id.value) == Converted(v.ingredients[i].ingredient)
            && PyInt(input.ingredients.value[i].amount.value) == Converted(v.ingredients[i].amount)
            && v.ingredients[i].ingredient in knownIngredients
            && v.ingredients[i].amount >= 1)
      && (forall i, j :: 0 <= i < j < |v.ingredients| ==> v.ingredients[i].ingredient != v.ingredients[j].ingredient)
  {
    var v := RecipeValidation(input, knownTags, knownIngredients, actor).value;
    var raws := input.tags.value;
    var ids := TagIds(raws);
    assert v.tags == Distinct(ids);
    forall t ensures t in v.tags <==> exists i :: 0 <= i < |raws| && PyInt(raws[i]) == Converted(t) {
      assert t in v.tags <==> t in Elements(ids);
      if t in ids {
        var i :| 0 <= i < |ids| && ids[i] == t;
        assert PyInt(raws[i]) == Converted(t);
      }
    }
    var entries := input.ingredients.value;
    var ingredientIds := IngredientIds(entries);
    assert v.ingredients == Amounts(entries, ingredientIds);
  }

  /** The raw duplicate check compares JSON values, not ids: `[1, "1"]`
      names the same tag twice yet passes, and the recipe gets that tag once. */
  lemma SameTagSpelledTwiceAccepted(input: RecipeInput, knownTags: set<TagId>, knownIngredients: set<IngredientId>, actor: UserId)
    requires input.image == Some("img") && input.tags == Some([Int(1), Str("1")])
    requires input.ingredients == Some([IngredientEntry(Some(Int(7)), Some(Int(2)))])
    requires 1 in knownTags && 7 in knownIngredients
    ensures RecipeValidation(input, knownTags, knownIngredients, actor).Success?
    ensures RecipeValidation(input, knownTags, knownIngredients, actor).value.tags == [1]
  {
    assert ParseInt("1") == Some(1) by {
      assert "1"[0] == '1' && AllDigits("1");
      assert DigitsValue("1") == DigitsValue("1"[..0]) * 10 + DigitValue('1');
    }
    var raws := input.tags.value;
    assert raws[0] != raws[1];
    assert TagIds(raws) == [1, 1];
    assert Distinct([1, 1]) == Distinct([1]) + [] by {
      assert [1, 1][..1] == [1];
    }
  }

  /** The row `create` and `update` store for validated data. */
  function RecipeOf(v: ValidRecipe): (r: Recipe)
    ensures r.author == Some(v.author) && r.cookingTime == v.cookingTime
  {
    Recipe(Some(v.author), v.name, v.image, v.text, v.cookingTime)
  }

  /** What the store's constraints demand of validated data before it is
      written: existing author, tags and ingredients, distinct tags and
      ingredients, and the `VALUE_VALIDATOR` minimum on `cooking_time` and on
      every amount (`bulk_create` does not run field validators). */
  ghost predicate Storable(db: Store, v: ValidRecipe)
    reads db
  {
    && v.author in db.users
    && v.cookingTime >= db.valueValidator
    && NoDuplicates(v.tags)
    && (forall t :: t in v.tags ==> t in db.tags)
    && (forall i :: 0 <= i < |v.ingredients| ==> v.ingredients[i].ingredient in db.ingredients && v.ingredients[i].amount >= db.valueValidator)
    && (forall i, j :: 0 <= i < j < |v.ingredients| ==> v.ingredients[i].ingredient != v.ingredients[j].ingredient)
  }

  /** Data that `validate` accepted against the store's tags and ingredients
      can be written, as long as `VALUE_VALIDATOR` is at most 1 (the amount
      check only demands a positive amount) and the field validators have
      passed `cooking_time`. */
  lemma ValidatedIsStorable(db: Store, input: RecipeInput, actor: UserId)
    requires db.Valid() && actor in db.users
    requires db.valueValidator <= 1 && input.cookingTime >= db.valueValidator
    requires RecipeValidation(input, db.tags.Keys, db.ingredients.Keys, actor).Success?
    ensures Storable(db, RecipeValidation(input, db.tags.Keys, db.ingredients.Keys, actor).value)
  {
    ValidatedContents(input, db.tags.Keys, db.ingredients.Keys, actor);
  }

  /** `create`: a new recipe row, its tags set, and one ingredient row per pair. */
  method Create(db: Store, v: ValidRecipe) returns (id: RecipeId)
    requires db.Valid() && Storable(db, v)
    modifies db`recipes, db`nextRecipeId, db`recipeTags, db`recipeIngredients
    ensures db.Valid()
    ensures id !in old(db.recipes) && db.recipes == old(db.recipes)[id := RecipeOf(v)]
    ensures db.TagsOf(id) == Elements(v.tags)
    ensures forall row: RecipeTag :: row.recipe != id ==> (row in db.recipeTags <==> row in old(db.recipeTags))
    ensures db.recipeIngredients == old(db.recipeIngredients) + AmountRows(id, v.ingredients)
    ensures db.IngredientRowsOf(id) == Elements(AmountRows(id, v.ingredients))
  {
    id := db.InsertRecipe(RecipeOf(v));
    db.SetTags(id, v.tags);
    db.BulkCreateIngredients(id, v.ingredients);
  }

  datatype UpdateOutcome = Updated | PermissionDenied

  /** `update`: only staff or the recipe's author may change it; then the
      fields are overwritten (the author too, with the requesting user), the
      tags are replaced and the ingredient rows rebuilt. A denied update
      changes nothing. */
  method Update(db: Store, id: RecipeId, v: ValidRecipe, actor: UserId, actorIsStaff: bool) returns (outcome: UpdateOutcome)
    requires db.Valid() && id in db.recipes && Storable(db, v)
    modifies db`recipes, db`recipeTags, db`recipeIngredients
    ensures db.Valid()
    ensures outcome == Updated <==> actorIsStaff || old(db.recipes[id].author) == Some(actor)
    ensures outcome == PermissionDenied ==>
              db.recipes == old(db.recipes) && db.recipeTags == old(db.recipeTags) && db.recipeIngredients == old(db.recipeIngredients)
    ensures outcome == Updated ==> db.recipes == old(db.recipes)[id := RecipeOf(v)]
    ensures outcome == Updated ==> db.TagsOf(id) == Elements(v.tags)
    ensures outcome == Updated ==> db.IngredientRowsOf(id) == Elements(AmountRows(id, v.ingredients))
    ensures outcome == Updated ==> forall row: RecipeTag :: row.recipe != id ==> (row in db.recipeTags <==> row in old(db.recipeTags))
    ensures outcome == Updated ==> forall row: RecipeIngredient :: row.recipe != id ==> (row in db.recipeIngredients <==> row in old(db.recipeIngredients))
  {
    if !actorIsStaff && Some(actor) != db.recipes[id].author {
      return PermissionDenied;
    }
    db.UpdateRecipe(id, RecipeOf(v));
    db.ClearTags(id);
    db.SetTags(id, v.tags);
    db.ClearIngredients(id);
    db.BulkCreateIngredients(id, v.ingredients);
    outcome := Updated;
  }

  datatype SubscriptionError = AlreadySubscribed | SelfSubscription

  /** `SubscriptionsSerializer.validate`: `author` is the serializer's
      instance, `None` when it was built without one. An existing
      subscription is reported before a self-subscription. */
  function SubscriptionCheck(subscriptions: seq<Link>, user: UserId, author: Option<UserId>): (r: Option<SubscriptionError>)
    ensures r.None? <==> author.None? || (Link(user, author.value) !in subscriptions && author.value != user)
    ensures author.Some? && Link(user, author.value) in subscriptions ==> r == Some(AlreadySubscribed)
    ensures r == Some(SelfSubscription) ==> author == Some(user)
    ensures r == Some(AlreadySubscribed) ==> author.Some? && Link(user, author.value) in subscriptions
  {
    if author.Some? && Link(user, author.value) in subscriptions then Some(AlreadySubscribed)
    else if author == Some(user) then Some(SelfSubscription)
    else None
  }

  /** A subscription the check lets through can be added without breaking
      `subscriptions_unique`, and is never a user following themselves. */
  lemma AcceptedSubscriptionIsNew(subscriptions: seq<Link>, user: UserId, author: UserId)
    requires NoDuplicates(subscriptions)
    requires SubscriptionCheck(subscriptions, user, Some(author)).None?
    ensures NoDuplicates(subscriptions + [Link(user, author)])
    ensures user != author
  {
    AppendKeepsNoDuplicates(subscriptions, [Link(user, author)]);
  }

  /** Without an instance the check passes whatever the table holds: both
      lookups compare against `None`. */
  lemma NoInstanceAlwaysPasses(subscriptions: seq<Link>, user: UserId)
    ensures SubscriptionCheck(subscriptions, user, None).None?
  {
  }
}
