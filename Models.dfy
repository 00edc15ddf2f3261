/** The relational model of backend/recipes/models.py: the entities as
    values, and the database as one object whose tables are fields. The
    declared constraints (unique fields and pairs, `MinValueValidator`
    minimums, foreign keys) are the store's invariant `Valid()`, and the
    `on_delete=CASCADE` rules are the delete methods at the end. */
module Models {
  import opened Common

  // Primary keys. Django's keys are positive integers; a key that names no
  // row (negative ones included) simply does not exist in its table.
  type UserId = int
  type TagId = int
  type IngredientId = int
  type RecipeId = int

  datatype User = User(email: string, username: string, avatar: Option<string>)

  datatype Tag = Tag(name: string, color: string, slug: string)

  datatype Ingredient = Ingredient(name: string, measurementUnit: string)

  /** `Recipe`; `author` is nullable in the schema. The many-to-many `tags` and
      `ingredients` live in the join tables, and `pub_date` is not modelled. */
  datatype Recipe = Recipe(author: Option<UserId>, name: string, image: string, text: string, cookingTime: nat)

  /** A `Recipe_Tags` row. */
  datatype RecipeTag = RecipeTag(recipe: RecipeId, tag: TagId)

  /** A `Recipe_Ingredients` row; `amount` is a `PositiveSmallIntegerField`. */
  datatype RecipeIngredient = RecipeIngredient(recipe: RecipeId, ingredient: IngredientId, amount: nat)

  /** An ingredient with its amount, as the recipe validator hands it over. */
  datatype IngredientAmount = IngredientAmount(ingredient: IngredientId, amount: nat)

  /** A (user, target) row: `Favorites` and `ShoppingCart` (target = recipe)
      and `Subscriptions` (target = author). */
  datatype Link = Link(user: UserId, target: int)

  /** The columns of the `recipeingredient_unique` constraint. */
  function IngredientRowKey(row: RecipeIngredient): (RecipeId, IngredientId)
  {
    (row.recipe, row.ingredient)
  }

  /** `unique=True` on `User.email` and `User.username`. */
  predicate UniqueUsers(users: map<UserId, User>)
  {
    forall a, b :: a in users && b in users && a != b ==>
      users[a].email != users[b].email && users[a].username != users[b].username
  }

  /** `unique=True` on `Tag.name`, `Tag.color` and `Tag.slug`. */
  predicate UniqueTags(tags: map<TagId, Tag>)
  {
    forall a, b :: a in tags && b in tags && a != b ==>
      tags[a].name != tags[b].name && tags[a].color != tags[b].color && tags[a].slug != tags[b].slug
  }

  /** `unique=True` on `Ingredient.name`. */
  predicate UniqueIngredients(ingredients: map<IngredientId, Ingredient>)
  {
    forall a, b :: a in ingredients && b in ingredients && a != b ==>
      ingredients[a].name != ingredients[b].name
  }

  /** `Recipe`: `cooking_time` at least `VALUE_VALIDATOR`, an author (when
      there is one) that exists, and every key below the next one handed out. */
  predicate RecipeTable(recipes: map<RecipeId, Recipe>, users: set<UserId>, next: RecipeId, minimum: int)
  {
    forall r :: r in recipes ==>
      && r < next
      && recipes[r].cookingTime >= minimum
      && (recipes[r].author.Some? ==> recipes[r].author.value in users)
  }

  /** `Recipe_Tags`: the `recipetag_unique` constraint and both foreign keys. */
  predicate TagRows(rows: seq<RecipeTag>, recipes: set<RecipeId>, tags: set<TagId>)
  {
    NoDuplicates(rows) && forall row :: row in rows ==> row.recipe in recipes && row.tag in tags
  }

  /** `Recipe_Ingredients`: the `recipeingredient_unique` constraint, the
      minimum amount and both foreign keys. */
  predicate IngredientRows(rows: seq<RecipeIngredient>, recipes: set<RecipeId>, ingredients: set<IngredientId>, minimum: int)
  {
    && DistinctBy(rows, IngredientRowKey)
    && forall row :: row in rows ==> row.recipe in recipes && row.ingredient in ingredients && row.amount >= minimum
  }

  /** `Favorites`, `ShoppingCart`, `Subscriptions`: one row per pair, both
      ends existing. */
  predicate LinkTable(links: seq<Link>, users: set<UserId>, targets: set<int>)
  {
    NoDuplicates(links) && forall l :: l in links ==> l.user in users && l.target in targets
  }

  /** The declared constraints, table by table. */
  ghost predicate Consistent(users: map<UserId, User>, tags: map<TagId, Tag>, ingredients: map<IngredientId, Ingredient>,
                             recipes: map<RecipeId, Recipe>, nextRecipeId: RecipeId, minimum: int,
                             recipeTags: seq<RecipeTag>, recipeIngredients: seq<RecipeIngredient>,
                             favorites: seq<Link>, shoppingCart: seq<Link>, subscriptions: seq<Link>)
  {
    && UniqueUsers(users)
    && UniqueTags(tags)
    && UniqueIngredients(ingredients)
    && RecipeTable(recipes, users.Keys, nextRecipeId, minimum)
    && TagRows(recipeTags, recipes.Keys, tags.Keys)
    && IngredientRows(recipeIngredients, recipes.Keys, ingredients.Keys, minimum)
    && LinkTable(favorites, users.Keys, recipes.Keys)
    && LinkTable(shoppingCart, users.Keys, recipes.Keys)
    && LinkTable(subscriptions, users.Keys, users.Keys)
  }

  /** Keeping only some rows of a table keeps its unique constraint, and the
      kept rows' references hold as long as they point into what remains. */
  lemma TagRowsFilter(rows: seq<RecipeTag>, keep: RecipeTag -> bool, recipes: set<RecipeId>, tags: set<TagId>)
    requires TagRows(rows, recipes, tags)
    ensures TagRows(Filter(rows, keep), recipes, tags)
  {
    FilterKeepsNoDuplicates(rows, keep);
  }

  lemma IngredientRowsFilter(rows: seq<RecipeIngredient>, keep: RecipeIngredient -> bool, recipes: set<RecipeId>, ingredients: set<IngredientId>, minimum: int)
    requires IngredientRows(rows, recipes, ingredients, minimum)
    ensures IngredientRows(Filter(rows, keep), recipes, ingredients, minimum)
  {
    FilterKeepsDistinctBy(rows, keep, IngredientRowKey);
  }

  /** `on_delete=CASCADE` on both keys of `Recipe_Tags`: the rows whose recipe
      and tag both survive. */
  function TagRowsWithin(rows: seq<RecipeTag>, recipes: set<RecipeId>, tags: set<TagId>): (r: seq<RecipeTag>)
    ensures forall row :: row in r <==> row in rows && row.recipe in recipes && row.tag in tags
  {
    Filter(rows, (row: RecipeTag) => row.recipe in recipes && row.tag in tags)
  }

  /** `on_delete=CASCADE` on both keys of `Recipe_Ingredients`. */
  function IngredientRowsWithin(rows: seq<RecipeIngredient>, recipes: set<RecipeId>, ingredients: set<IngredientId>): (r: seq<RecipeIngredient>)
    ensures forall row :: row in r <==> row in rows && row.recipe in recipes && row.ingredient in ingredients
  {
    Filter(rows, (row: RecipeIngredient) => row.recipe in recipes && row.ingredient in ingredients)
  }

  /** `on_delete=CASCADE` on both keys of `Favorites`, `ShoppingCart` and `Subscriptions`. */
  function LinksWithin(links: seq<Link>, users: set<UserId>, targets: set<int>): (r: seq<Link>)
    ensures forall l :: l in r <==> l in links && l.user in users && l.target in targets
  {
    Filter(links, (l: Link) => l.user in users && l.target in targets)
  }

  lemma TagRowsWithinAll(rows: seq<RecipeTag>, recipes: set<RecipeId>, tags: set<TagId>)
    requires forall row :: row in rows ==> row.recipe in recipes && row.tag in tags
    ensures TagRowsWithin(rows, recipes, tags) == rows
  {
    FilterAll(rows, (row: RecipeTag) => row.recipe in recipes && row.tag in tags);
  }

  lemma IngredientRowsWithinAll(rows: seq<RecipeIngredient>, recipes: set<RecipeId>, ingredients: set<IngredientId>)
    requires forall row :: row in rows ==> row.recipe in recipes && row.ingredient in ingredients
    ensures IngredientRowsWithin(rows, recipes, ingredients) == rows
  {
    FilterAll(rows, (row: RecipeIngredient) => row.recipe in recipes && row.ingredient in ingredients);
  }

  lemma LinksWithinAll(links: seq<Link>, users: set<UserId>, targets: set<int>)
    requires forall l :: l in links ==> l.user in users && l.target in targets
    ensures LinksWithin(links, users, targets) == links
  {
    FilterAll(links, (l: Link) => l.user in users && l.target in targets);
  }

  /** The recipes left once an author's are deleted; `author=None` recipes stay. */
  function RecipesNotBy(recipes: map<RecipeId, Recipe>, u: UserId): (r: map<RecipeId, Recipe>)
    ensures forall k :: k in r <==> k in recipes && recipes[k].author != Some(u)
    ensures forall k :: k in r ==> r[k] == recipes[k]
  {
    map k | k in recipes && recipes[k].author != Some(u) :: recipes[k]
  }

  /** After an author's recipes go, every remaining recipe names a remaining author. */
  lemma RecipesNotByKeepsTable(recipes: map<RecipeId, Recipe>, users: map<UserId, User>, u: UserId, next: RecipeId, minimum: int)
    requires RecipeTable(recipes, users.Keys, next, minimum)
    ensures RecipeTable(RecipesNotBy(recipes, u), (users - {u}).Keys, next, minimum)
  {
  }

  /** The cascade keeps every constraint: when some users, tags, ingredients
      and recipes go (the recipes that stay still naming surviving authors),
      every join table restricted to the surviving rows is consistent again. */
  lemma CascadeKeepsConsistent(users: map<UserId, User>, tags: map<TagId, Tag>, ingredients: map<IngredientId, Ingredient>,
                               recipes: map<RecipeId, Recipe>, nextRecipeId: RecipeId, minimum: int,
                               recipeTags: seq<RecipeTag>, recipeIngredients: seq<RecipeIngredient>,
                               favorites: seq<Link>, shoppingCart: seq<Link>, subscriptions: seq<Link>,
                               users': map<UserId, User>, tags': map<TagId, Tag>, ingredients': map<IngredientId, Ingredient>,
                               recipes': map<RecipeId, Recipe>)
    requires Consistent(users, tags, ingredients, recipes, nextRecipeId, minimum,
                        recipeTags, recipeIngredients, favorites, shoppingCart, subscriptions)
    requires forall k :: k in users' ==> k in users && users'[k] == users[k]
    requires forall k :: k in tags' ==> k in tags && tags'[k] == tags[k]
    requires forall k :: k in ingredients' ==> k in ingredients && ingredients'[k] == ingredients[k]
    requires RecipeTable(recipes', users'.Keys, nextRecipeId, minimum)
    ensures Consistent(users', tags', ingredients', recipes', nextRecipeId, minimum,
                       TagRowsWithin(recipeTags, recipes'.Keys, tags'.Keys),
                       IngredientRowsWithin(recipeIngredients, recipes'.Keys, ingredients'.Keys),
                       LinksWithin(favorites, users'.Keys, recipes'.Keys),
                       LinksWithin(shoppingCart, users'.Keys, recipes'.Keys),
                       LinksWithin(subscriptions, users'.Keys, users'.Keys))
  {
    FilterKeepsNoDuplicates(recipeTags, (row: RecipeTag) => row.recipe in recipes'.Keys && row.tag in tags'.Keys);
    FilterKeepsDistinctBy(recipeIngredients, (row: RecipeIngredient) => row.recipe in recipes'.Keys && row.ingredient in ingredients'.Keys, IngredientRowKey);
    FilterKeepsNoDuplicates(favorites, (l: Link) => l.user in users'.Keys && l.target in recipes'.Keys);
    FilterKeepsNoDuplicates(shoppingCart, (l: Link) => l.user in users'.Keys && l.target in recipes'.Keys);
    FilterKeepsNoDuplicates(subscriptions, (l: Link) => l.user in users'.Keys && l.target in users'.Keys);
  }

  /** The `Recipe_Tags` rows linking one recipe to each of the given tags. */
  function TagLinks(recipe: RecipeId, ts: seq<TagId>): (r: seq<RecipeTag>)
    ensures |r| == |ts|
    ensures forall i :: 0 <= i < |ts| ==> r[i] == RecipeTag(recipe, ts[i])
  {
    seq(|ts|, i requires 0 <= i < |ts| => RecipeTag(recipe, ts[i]))
  }

  /** The `Recipe_Ingredients` rows one recipe gets from (ingredient, amount) pairs. */
  function AmountRows(recipe: RecipeId, items: seq<IngredientAmount>): (r: seq<RecipeIngredient>)
    ensures |r| == |items|
    ensures forall i :: 0 <= i < |items| ==> r[i] == RecipeIngredient(recipe, items[i].ingredient, items[i].amount)
  {
    seq(|items|, i requires 0 <= i < |items| => RecipeIngredient(recipe, items[i].ingredient, items[i].amount))
  }

  /** Adding rows for tags the recipe does not carry yet keeps `recipetag_unique`. */
  lemma TagRowsAppend(rows: seq<RecipeTag>, recipe: RecipeId, ts: seq<TagId>, recipes: set<RecipeId>, tags: set<TagId>)
    requires TagRows(rows, recipes, tags)
    requires recipe in recipes && NoDuplicates(ts)
    requires forall t :: t in ts ==> t in tags
    requires forall row :: row in rows && row.recipe == recipe ==> row.tag !in ts
    ensures TagRows(rows + TagLinks(recipe, ts), recipes, tags)
  {
    var added := TagLinks(recipe, ts);
    forall i, j | 0 <= i < j < |added| ensures added[i] != added[j] {
      assert added[i].tag == ts[i] && added[j].tag == ts[j];
    }
    forall x | x in rows ensures x !in added {
    }
    AppendKeepsNoDuplicates(rows, added);
    forall row | row in rows + added ensures row.recipe in recipes && row.tag in tags {
      if row in added {
        var i :| 0 <= i < |added| && added[i] == row;
        assert row.tag == ts[i];
      }
    }
  }

  /** Adding rows for ingredients the recipe does not hold yet, each at least
      the minimum amount, keeps `recipeingredient_unique` and the minimum. */
  lemma IngredientRowsAppend(rows: seq<RecipeIngredient>, recipe: RecipeId, items: seq<IngredientAmount>,
                             recipes: set<RecipeId>, ingredients: set<IngredientId>, minimum: int)
    requires IngredientRows(rows, recipes, ingredients, minimum)
    requires recipe in recipes
    requires forall i :: 0 <= i < |items| ==> items[i].ingredient in ingredients && items[i].amount >= minimum
    requires forall i, j :: 0 <= i < j < |items| ==> items[i].ingredient != items[j].ingredient
    requires forall row, i :: row in rows && row.recipe == recipe && 0 <= i < |items| ==> row.ingredient != items[i].ingredient
    ensures IngredientRows(rows + AmountRows(recipe, items), recipes, ingredients, minimum)
  {
    var added := AmountRows(recipe, items);
    forall i, j | 0 <= i < j < |added| ensures IngredientRowKey(added[i]) != IngredientRowKey(added[j]) {
    }
    forall x, y | x in rows && y in added ensures IngredientRowKey(x) != IngredientRowKey(y) {
      var j :| 0 <= j < |added| && added[j] == y;
    }
    AppendKeepsDistinctBy(rows, added, IngredientRowKey);
    forall row | row in rows + added ensures row.recipe in recipes && row.ingredient in ingredients && row.amount >= minimum {
      if row in added {
        var j :| 0 <= j < |added| && added[j] == row;
      }
    }
  }

  class Store {
    /** `VALUE_VALIDATOR`, the minimum of `cooking_time` and `amount`. */
    const valueValidator: int

    var users: map<UserId, User>
    var tags: map<TagId, Tag>
    var ingredients: map<IngredientId, Ingredient>
    var recipes: map<RecipeId, Recipe>
    /** The next key the database hands out to a new recipe. */
    var nextRecipeId: RecipeId
    var recipeTags: seq<RecipeTag>
    var recipeIngredients: seq<RecipeIngredient>
    var favorites: seq<Link>
    var shoppingCart: seq<Link>
    var subscriptions: seq<Link>

    /** The declared constraints, table by table. */
    ghost predicate Valid()
      reads this
    {
      Consistent(users, tags, ingredients, recipes, nextRecipeId, valueValidator,
                 recipeTags, recipeIngredients, favorites, shoppingCart, subscriptions)
    }

    /** The tags of a recipe: the `Recipe_Tags` rows that name it. */
    function TagsOf(recipe: RecipeId): set<TagId>
      reads this
    {
      set row | row in recipeTags && row.recipe == recipe :: row.tag
    }

    /** The ingredient rows of a recipe. */
    function IngredientRowsOf(recipe: RecipeId): set<RecipeIngredient>
      reads this
    {
      set row | row in recipeIngredients && row.recipe == recipe
    }

    constructor (valueValidator: int)
      ensures Valid() && this.valueValidator == valueValidator
      ensures users == map[] && tags == map[] && ingredients == map[] && recipes == map[]
      ensures recipeTags == [] && recipeIngredients == [] && favorites == [] && shoppingCart == [] && subscriptions == []
    {
      this.valueValidator := valueValidator;
      users, tags, ingredients, recipes := map[], map[], map[], map[];
      nextRecipeId := 1;
      recipeTags, recipeIngredients := [], [];
      favorites, shoppingCart, subscriptions := [], [], [];
    }

    /** Two ingredients never share (name, measurement_unit): `unique_together`
        follows from the name alone being unique. */
    lemma NameAndUnitUnique(a: IngredientId, b: IngredientId)
      requires Valid() && a in ingredients && b in ingredients
      requires ingredients[a].name == ingredients[b].name
      ensures a == b
      ensures ingredients[a].measurementUnit == ingredients[b].measurementUnit
    {
    }

    /** `Recipe.objects.create(...)`: a new row under a fresh key. */
    method InsertRecipe(r: Recipe) returns (id: RecipeId)
      requires Valid()
      requires r.cookingTime >= valueValidator
      requires r.author.Some? ==> r.author.value in users
      modifies this`recipes, this`nextRecipeId
      ensures Valid()
      ensures id !in old(recipes) && recipes == old(recipes)[id := r]
      ensures TagsOf(id) == {} && IngredientRowsOf(id) == {}
    {
      id := nextRecipeId;
      recipes := recipes[id := r];
      nextRecipeId := nextRecipeId + 1;
    }

    /** Saving new scalar fields of an existing recipe. */
    method UpdateRecipe(id: RecipeId, r: Recipe)
      requires Valid() && id in recipes
      requires r.cookingTime >= valueValidator
      requires r.author.Some? ==> r.author.value in users
      modifies this`recipes
      ensures Valid()
      ensures recipes == old(recipes)[id := r]
    {
      recipes := recipes[id := r];
    }

    /** `recipe.tags.clear()`: drops every `Recipe_Tags` row of the recipe. */
    method ClearTags(recipe: RecipeId)
      requires Valid()
      modifies this`recipeTags
      ensures Valid()
      ensures forall row :: row in recipeTags <==> row in old(recipeTags) && row.recipe != recipe
    {
      var keep := (row: RecipeTag) => row.recipe != recipe;
      TagRowsFilter(recipeTags, keep, recipes.Keys, tags.Keys);
      recipeTags := Filter(recipeTags, keep);
    }

    /** `recipe.ingredients.clear()`: drops every ingredient row of the recipe. */
    method ClearIngredients(recipe: RecipeId)
      requires Valid()
      modifies this`recipeIngredients
      ensures Valid()
      ensures forall row :: row in recipeIngredients <==> row in old(recipeIngredients) && row.recipe != recipe
    {
      var keep := (row: RecipeIngredient) => row.recipe != recipe;
      IngredientRowsFilter(recipeIngredients, keep, recipes.Keys, ingredients.Keys, valueValidator);
      recipeIngredients := Filter(recipeIngredients, keep);
    }

    /** `recipe.tags.set(tags)` with the distinct tags of a queryset: removes
        the recipe's rows for tags outside `newTags` and adds a row for each
        tag of `newTags` it lacks, leaving other recipes alone. */
    method SetTags(recipe: RecipeId, newTags: seq<TagId>)
      requires Valid() && recipe in recipes && NoDuplicates(newTags)
      requires forall t :: t in newTags ==> t in tags
      modifies this`recipeTags
      ensures Valid()
      ensures TagsOf(recipe) == Elements(newTags)
      ensures forall row: RecipeTag :: row.recipe != recipe ==> (row in recipeTags <==> row in old(recipeTags))
    {
      var current := TagsOf(recipe);
      var keep := (row: RecipeTag) => row.recipe != recipe || row.tag in newTags;
      var lacking := (t: TagId) => t !in current;
      TagRowsFilter(recipeTags, keep, recipes.Keys, tags.Keys);
      var kept := Filter(recipeTags, keep);
      var missing := Filter(newTags, lacking);
      FilterKeepsNoDuplicates(newTags, lacking);
      forall row | row in kept && row.recipe == recipe ensures row.tag !in missing {
        assert row.tag in current;
      }
      TagRowsAppend(kept, recipe, missing, recipes.Keys, tags.Keys);
      recipeTags := kept + TagLinks(recipe, missing);
      assert TagsOf(recipe) == Elements(newTags) by {
        forall t | t in newTags ensures t in TagsOf(recipe) {
          if t in missing {
            var i :| 0 <= i < |missing| && missing[i] == t;
            assert TagLinks(recipe, missing)[i] == RecipeTag(recipe, t);
          } else {
            var row :| row in old(recipeTags) && row.recipe == recipe && row.tag == t;
            assert row in kept;
          }
        }
        forall t | t in TagsOf(recipe) ensures t in newTags {
          var row :| row in recipeTags && row.recipe == recipe && row.tag == t;
          if row !in kept {
            var i :| 0 <= i < |missing| && TagLinks(recipe, missing)[i] == row;
          }
        }
      }
    }

    /** `Recipe_Ingredients.objects.bulk_create(...)`: one row per
        (ingredient, amount) pair. The database refuses a second row for the
        same (recipe, ingredient), so the pairs name distinct ingredients the
        recipe does not hold yet; `bulk_create` runs no field validators, so
        each amount already meets the minimum. */
    method BulkCreateIngredients(recipe: RecipeId, items: seq<IngredientAmount>)
      requires Valid() && recipe in recipes
      requires forall i :: 0 <= i < |items| ==> items[i].ingredient in ingredients && items[i].amount >= valueValidator
      requires forall i, j :: 0 <= i < j < |items| ==> items[i].ingredient != items[j].ingredient
      requires forall row, i :: row in recipeIngredients && row.recipe == recipe && 0 <= i < |items| ==> row.ingredient != items[i].ingredient
      modifies this`recipeIngredients
      ensures Valid()
      ensures recipeIngredients == old(recipeIngredients) + AmountRows(recipe, items)
    {
      IngredientRowsAppend(recipeIngredients, recipe, items, recipes.Keys, ingredients.Keys, valueValidator);
      recipeIngredients := recipeIngredients + AmountRows(recipe, items);
    }

    /** Deleting a recipe cascades to its tag rows, ingredient rows, favorites
        and cart rows. */
    method DeleteRecipe(id: RecipeId)
      requires Valid()
      modifies this`recipes, this`recipeTags, this`recipeIngredients, this`favorites, this`shoppingCart
      ensures Valid()
      ensures recipes == old(recipes) - {id}
      ensures recipeTags == TagRowsWithin(old(recipeTags), recipes.Keys, tags.Keys)
      ensures recipeIngredients == IngredientRowsWithin(old(recipeIngredients), recipes.Keys, ingredients.Keys)
      ensures favorites == LinksWithin(old(favorites), users.Keys, recipes.Keys)
      ensures shoppingCart == LinksWithin(old(shoppingCart), users.Keys, recipes.Keys)
    {
      var remaining := recipes - {id};
      CascadeKeepsConsistent(users, tags, ingredients, recipes, nextRecipeId, valueValidator,
                             recipeTags, recipeIngredients, favorites, shoppingCart, subscriptions,
                             users, tags, ingredients, remaining);
      LinksWithinAll(subscriptions, users.Keys, users.Keys);
      recipes, recipeTags, recipeIngredients, favorites, shoppingCart :=
        remaining,
        TagRowsWithin(recipeTags, remaining.Keys, tags.Keys),
        IngredientRowsWithin(recipeIngredients, remaining.Keys, ingredients.Keys),
        LinksWithin(favorites, users.Keys, remaining.Keys),
        LinksWithin(shoppingCart, users.Keys, remaining.Keys);
    }

    /** Deleting a user cascades to the recipes they wrote (and through them
        to those recipes' rows), to their favorites and cart rows, and to
        their subscriptions in both roles. */
    method DeleteUser(u: UserId)
      requires Valid()
      modifies this`users, this`recipes, this`recipeTags, this`recipeIngredients, this`favorites, this`shoppingCart, this`subscriptions
      ensures Valid()
      ensures users == old(users) - {u}
      ensures recipes == RecipesNotBy(old(recipes), u)
      ensures recipeTags == TagRowsWithin(old(recipeTags), recipes.Keys, tags.Keys)
      ensures recipeIngredients == IngredientRowsWithin(old(recipeIngredients), recipes.Keys, ingredients.Keys)
      ensures favorites == LinksWithin(old(favorites), users.Keys, recipes.Keys)
      ensures shoppingCart == LinksWithin(old(shoppingCart), users.Keys, recipes.Keys)
      ensures subscriptions == LinksWithin(old(subscriptions), users.Keys, users.Keys)
    {
      var people := users - {u};
      var remaining := RecipesNotBy(recipes, u);
      RecipesNotByKeepsTable(recipes, users, u, nextRecipeId, valueValidator);
      CascadeKeepsConsistent(users, tags, ingredients, recipes, nextRecipeId, valueValidator,
                             recipeTags, recipeIngredients, favorites, shoppingCart, subscriptions,
                             people, tags, ingredients, remaining);
      users, recipes, recipeTags, recipeIngredients, favorites, shoppingCart, subscriptions :=
        people,
        remaining,
        TagRowsWithin(recipeTags, remaining.Keys, tags.Keys),
        IngredientRowsWithin(recipeIngredients, remaining.Keys, ingredients.Keys),
        LinksWithin(favorites, people.Keys, remaining.Keys),
        LinksWithin(shoppingCart, people.Keys, remaining.Keys),
        LinksWithin(subscriptions, people.Keys, people.Keys);
    }

    /** Deleting a tag cascades to its `Recipe_Tags` rows. */
    method DeleteTag(t: TagId)
      requires Valid()
      modifies this`tags, this`recipeTags
      ensures Valid()
      ensures tags == old(tags) - {t}
      ensures recipeTags == TagRowsWithin(old(recipeTags), recipes.Keys, tags.Keys)
    {
      var remaining := tags - {t};
      CascadeKeepsConsistent(users, tags, ingredients, recipes, nextRecipeId, valueValidator,
                             recipeTags, recipeIngredients, favorites, shoppingCart, subscriptions,
                             users, remaining, ingredients, recipes);
      IngredientRowsWithinAll(recipeIngredients, recipes.Keys, ingredients.Keys);
      LinksWithinAll(favorites, users.Keys, recipes.Keys);
      LinksWithinAll(shoppingCart, users.Keys, recipes.Keys);
      LinksWithinAll(subscriptions, users.Keys, users.Keys);
      tags := remaining;
      recipeTags := TagRowsWithin(recipeTags, recipes.Keys, remaining.Keys);
    }

    /** Deleting an ingredient cascades to its `Recipe_Ingredients` rows. */
    method DeleteIngredient(i: IngredientId)
      requires Valid()
      modifies this`ingredients, this`recipeIngredients
      ensures Valid()
      ensures ingredients == old(ingredients) - {i}
      ensures recipeIngredients == IngredientRowsWithin(old(recipeIngredients), recipes.Keys, ingredients.Keys)
    {
      var remaining := ingredients - {i};
      CascadeKeepsConsistent(users, tags, ingredients, recipes, nextRecipeId, valueValidator,
                             recipeTags, recipeIngredients, favorites, shoppingCart, subscriptions,
                             users, tags, remaining, recipes);
      TagRowsWithinAll(recipeTags, recipes.Keys, tags.Keys);
      LinksWithinAll(favorites, users.Keys, recipes.Keys);
      LinksWithinAll(shoppingCart, users.Keys, recipes.Keys);
      LinksWithinAll(subscriptions, users.Keys, users.Keys);
      ingredients := remaining;
      recipeIngredients := IngredientRowsWithin(recipeIngredients, recipes.Keys, remaining.Keys);
    }
  }
}
