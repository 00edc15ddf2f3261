# foodgram recipe backend — a verified Dafny model of its core

foodgram is a Django recipe-sharing backend: users publish recipes with tags
and ingredient amounts, mark favorites, fill a shopping cart and subscribe
to authors. This project models the parts of it that hold real logic and
proves what they promise:

- **Username validator** (`Validators`): `validate_username` refuses `me`
  first, then any character outside `[\w.@+-]`, and reports the set of
  offending characters. Python's Unicode-aware `\w` is the parameter
  `isWord`.
- **The database** (`Models`): the entities are datatypes and the database
  is the class `Store`. Each table is a field: a map from key to row for
  users, tags, ingredients and recipes, and a sequence of rows for the join
  tables `Recipe_Tags`, `Recipe_Ingredients`, `Favorites`, `ShoppingCart`
  and `Subscriptions`. The declared constraints are the invariant
  `Store.Valid()`:
  - every `unique=True` field and every `UniqueConstraint`;
  - the `MinValueValidator(VALUE_VALIDATOR)` minimum on `cooking_time` and
    `amount`;
  - every foreign key.

  Every `on_delete=CASCADE` rule is a delete method that keeps the
  invariant. `VALUE_VALIDATOR` is the store's constant `valueValidator`.
- **Recipe writes** (`Serializers`): `RecipeSerializer.validate` is the
  specification function `RecipeValidation` plus the loop method
  `ValidateRecipe`, proved equal to it.
  - The checks run in the source's order and each stops at its first
    failure: image, tag list, each tag id, raw duplicates, ingredient list,
    each ingredient id, converted duplicates, each amount.
  - The request's ids and amounts are JSON values (`Raw`). Python's `int()`
    on them is `PyInt`. An exception the method does not catch (a
    TypeError, a KeyError, a ValueError from `int(amount)`) is the error
    `Unhandled`.
  - `create` and `update` run on the store.
  - `SubscriptionsSerializer.validate` is the guard `SubscriptionCheck`.
- **Views** (`Views`):
  - `favorite_delete`, `shopping_cart_delete` and `unsubscribe` delete one
    pair and return 404, 400 or 204.
  - `manage_avatar_delete` clears the avatar.
  - `download_shopping_cart` is modelled as the join query:
    - `GroupTotal` is the group-by and sum over the join, with each
      ingredient row counted once per matching cart row.
    - `ShoppingListLines` is the loop that builds the lines.
    - `JoinLines` builds the body.

`Common` holds `Option`, `Result` and facts about sequences of rows. `Text`
holds `str(n)`, `int(s)` and `'\n'.join` together with its inverse
`split('\n')`.

Behaviour of the code worth knowing, which the model reproduces:
- **Duplicate tags.** The duplicate check at serializers.py:151 compares the
  raw JSON values, so `[1, "1"]` passes. `Tag.objects.filter(id__in=...)`
  then silently keeps one tag (`SameTagSpelledTwiceAccepted`).
- **No upper bounds.** The code has no upper bound on `cooking_time` or on
  amounts: the models declare only the `VALUE_VALIDATOR` minimum, and
  `validate` checks only `amount > 0`.
- **Line format.** Shopping-list lines are `name(unit):total`, with no
  spaces.
- **Image.** `validate` checks only that `image` is present and non-empty;
  decoding happens in a field class this model does not include.
- **Subscribe view.** The subscribe view (views.py:165-168) builds
  `SubscriptionsSerializer` without an instance. `validate` therefore
  compares against `None` and always passes (`NoInstanceAlwaysPasses`).
  The guard is modelled with the author as an explicit parameter.
- **Serializer names.** views.py imports serializer classes
  (`RecipeCreateSerializer`, `FavoritesSerializer`, …) that serializers.py
  does not define. The two files are modelled each as written, not wired
  together.

## Model

| member | source | states |
|---|---|---|
| Validators.ValidateUsername | backend/recipes/validators.py:6-18 | `me` fails with the reserved-name error. Any other name succeeds exactly when every character is in `[\w.@+-]`, and then comes back unchanged. Otherwise the error carries exactly the set of the name's disallowed characters, which is never empty. |
| Validators.StripAllowed | backend/recipes/validators.py:11-12 | `re.sub` leaves exactly the disallowed characters: each character left is disallowed, and every disallowed character survives. |
| Validators.MeIsReserved | backend/recipes/validators.py:7-10 | `me` is refused as reserved whatever `\w` accepts. |
| Validators.EmptyUsernameAccepted | backend/recipes/validators.py:12-18 | The empty username has no offending character and is accepted. |
| Validators.SpaceIsReported | backend/recipes/validators.py:12-16 | With a `\w` that excludes the space, `"a b"` is refused and exactly `{' '}` is reported. |
| Text.DecimalStringRoundTrip | backend/api/views.py:110-112 | `int(str(n)) == n` for every amount written into a list line. |
| Text.SplitJoinRoundTrip | backend/api/views.py:114 | `'\n'.join` is undone by `split('\n')` when no line holds a newline. |
| Common.Without | backend/api/views.py:67-69 | `filter(...).delete()` on a pair: every copy of the pair goes and the multiset of the other rows is unchanged. |
| Common.NoDuplicatesCountAtMostOne | backend/recipes/models.py:205-208 | Under a unique constraint, a lookup by the whole row finds at most one row. |
| Common.ElementsCardinality | backend/api/serializers.py:151-153 | `len(set(xs)) == len(xs)` exactly when no value of `xs` repeats. |
| Common.FirstFailing | backend/api/serializers.py:142-149 | A loop that raises on the first bad element stops at the least failing index, after all earlier elements passed. |
| Common.Distinct | backend/api/serializers.py:194 | `filter(id__in=...)` yields each id once: no repeats, and the same set of ids as the list. |
| Models.Store.NameAndUnitUnique | backend/recipes/models.py:94-103 | In a valid store two ingredients with the same name are the same ingredient, so `unique_together` on (name, measurement_unit) holds. |
| Models.TagRowsAppend | backend/recipes/models.py:158-161 | Rows for tags a recipe lacks, added for existing tags, keep `recipetag_unique` and both foreign keys. |
| Models.IngredientRowsAppend | backend/recipes/models.py:178-187 | Rows for distinct ingredients a recipe lacks, each at least the minimum, keep `recipeingredient_unique`, the minimum and both foreign keys. |
| Models.CascadeKeepsConsistent | backend/recipes/models.py:150-229 | When users, tags, ingredients or recipes are deleted, restricting every join table to rows whose references survive restores every constraint. |
| Models.RecipesNotByKeepsTable | backend/recipes/models.py:115-121 | After a user's recipes are deleted, every remaining recipe names a remaining author or none. |
| Models.TagRowsWithin | backend/recipes/models.py:150-156 | The `Recipe_Tags` cascade keeps exactly the rows whose recipe and tag both survive. |
| Models.IngredientRowsWithin | backend/recipes/models.py:167-177 | The `Recipe_Ingredients` cascade keeps exactly the rows whose recipe and ingredient both survive. |
| Models.LinksWithin | backend/recipes/models.py:193-224 | The `Favorites`/`ShoppingCart`/`Subscriptions` cascade keeps exactly the rows whose two ends both survive. |
| Models.Store.InsertRecipe | backend/api/serializers.py:203 | `Recipe.objects.create` adds the row under a key not used before, changes no other recipe, and the new recipe has no tag or ingredient rows; the constraints still hold. |
| Models.Store.UpdateRecipe | backend/api/serializers.py:222 | Saving new fields replaces exactly that recipe's row; the constraints still hold. |
| Models.Store.ClearTags | backend/api/serializers.py:223 | `tags.clear()` removes exactly the recipe's `Recipe_Tags` rows. |
| Models.Store.ClearIngredients | backend/api/serializers.py:225 | `ingredients.clear()` removes exactly the recipe's ingredient rows. |
| Models.Store.SetTags | backend/api/serializers.py:224 | After `tags.set(tags)` the recipe's tag set is exactly the given tags. Other recipes' tag rows are untouched and `recipetag_unique` still holds. |
| Models.Store.BulkCreateIngredients | backend/api/serializers.py:226-231 | `bulk_create` appends one row per (ingredient, amount) pair and keeps every constraint. |
| Models.Store.DeleteRecipe | backend/recipes/models.py:150-219 | Deleting a recipe removes its tag, ingredient, favorite and cart rows and nothing else; the constraints still hold. |
| Models.Store.DeleteUser | backend/recipes/models.py:115-121 | Deleting a user removes the recipes they wrote (with those recipes' rows), their favorites and cart rows, and their subscriptions in both roles; the constraints still hold. |
| Models.Store.DeleteTag | backend/recipes/models.py:154-156 | Deleting a tag removes exactly its `Recipe_Tags` rows. |
| Models.Store.DeleteIngredient | backend/recipes/models.py:173-177 | Deleting an ingredient removes exactly its `Recipe_Ingredients` rows. |
| Serializers.PyIntOfDecimal | backend/api/serializers.py:144 | A number sent as its decimal text converts to that number. |
| Serializers.TagFailure | backend/api/serializers.py:142-149 | A tag id that fails is an uncaught error exactly when it is `null`. Otherwise the `tags` error shows the converted id, or the raw one when `int` failed. |
| Serializers.IngredientFailure | backend/api/serializers.py:158-168 | A failing ingredient id is an uncaught error exactly when the key is missing or `null`. Otherwise the `ingredients` error shows the converted or raw id. |
| Serializers.AmountFailure | backend/api/serializers.py:179-183 | A converting but non-positive amount gives the non-positive-amount error. A missing or non-converting amount gives an uncaught error. |
| Serializers.IngredientIds | backend/api/serializers.py:160 | Definition: the ids written back by `ingredient['id'] = int(...)`, one per entry, each the entry's converted id. Its properties are proved in `ValidatedContents`. |
| Serializers.Amounts | backend/api/serializers.py:178-191 | Definition: `valid_ingredients`, one positive converted amount per entry paired with its id. Its properties are proved in `ValidatedContents` and `Create`. |
| Serializers.ValidateRecipe | backend/api/serializers.py:133-198 | The loops of `validate` return exactly what `RecipeValidation` specifies, first failure included. |
| Serializers.ValidationAcceptsExactly | backend/api/serializers.py:133-183 | `validate` succeeds iff all of these hold: the image is non-empty; the tags are non-empty and all convert to existing tags with no raw value repeated; the ingredients are non-empty, all ids present, converting and existing, with no converted id repeated; every amount is present, converting and positive. |
| Serializers.ValidatedContents | backend/api/serializers.py:185-197 | On success the author is the acting user and the fields pass through. The tags are exactly the distinct converted tag ids, all existing. There is one pair per submitted ingredient with its converted id and positive amount, and the ingredients are pairwise distinct. |
| Serializers.SameTagSpelledTwiceAccepted | backend/api/serializers.py:151-153 | `[1, "1"]` names tag 1 twice yet passes, and the recipe gets tag 1 once. |
| Serializers.RecipeOf | backend/api/serializers.py:193-203 | Definition: the recipe row stored from validated data, carrying the validated author. |
| Serializers.ValidatedIsStorable | backend/api/serializers.py:178-183 | Accepted data meets every constraint of the store when `VALUE_VALIDATOR` is at most 1 and `cooking_time` passed its field validators. |
| Serializers.Create | backend/api/serializers.py:200-211 | A fresh recipe with the validated fields. Its tag set is exactly the validated tags and it has exactly one ingredient row per validated pair. Other recipes are untouched and the constraints hold. |
| Serializers.Update | backend/api/serializers.py:213-233 | Succeeds iff the actor is staff or the recipe's author; a denied update changes nothing. Otherwise the recipe row is replaced and the tag set and ingredient rows are exactly the new ones, with none of the old kept. Other recipes' rows are untouched and the constraints hold. |
| Serializers.SubscriptionCheck | backend/api/serializers.py:254-265 | Passes iff there is no instance, or the pair is not subscribed yet and the user is not the author. An existing subscription is reported before self-subscription. |
| Serializers.AcceptedSubscriptionIsNew | backend/api/serializers.py:257-264 | A pair the guard lets through can be added without breaking `subscriptions_unique` and is never a self-subscription. |
| Serializers.NoInstanceAlwaysPasses | backend/api/serializers.py:255-261 | Without an instance the guard passes whatever the table holds. |
| Views.LinkTableWithout | backend/api/views.py:67-69 | Deleting every row of one pair keeps a link table's unique constraint and foreign keys. |
| Views.FavoriteDelete | backend/api/views.py:65-72 | 404 for an unknown recipe, with no change. Otherwise exactly the (user, recipe) rows go: 204 iff the pair existed, 400 iff it did not. Afterwards the pair is absent and the constraints hold. |
| Views.ShoppingCartDelete | backend/api/views.py:87-94 | The same for the cart: 404, or exactly the pair removed with 204 iff it existed and 400 otherwise. |
| Views.Unsubscribe | backend/api/views.py:178-186 | 404 for an unknown author. Otherwise exactly the (user, author) subscription goes: 204 iff it existed, 400 otherwise. |
| Views.ManageAvatarDelete | backend/api/views.py:219-224 | 204 iff the user had an avatar, which is then cleared with nothing else changed. 400 otherwise, with no change. |
| Views.GroupTotalOfUniqueCart | backend/api/views.py:103-106 | Under `usershoppingcart_unique` the join's sum equals the plain sum of amounts over the group's rows of recipes in the cart. |
| Views.GroupTotalAppend | backend/api/views.py:106 | The sum is additive over a split of the ingredient rows. |
| Views.GroupTotalAtLeastRow | backend/api/views.py:103-106 | A group's total is at least the amount of any row it joins. |
| Views.CartTotalsAtLeast | backend/api/views.py:103-106 | When every amount is at least a minimum, every listed total is too. |
| Views.GroupIsOneIngredient | backend/api/views.py:104-105 | Because ingredient names are unique, a (name, unit) group is a single ingredient. |
| Views.ShoppingLineAmount | backend/api/views.py:110-112 | The amount reads back from the text after a line's last colon, whatever colons the name or unit hold. |
| Views.ShoppingLineNoNewline | backend/api/views.py:110-112 | A line holds a newline only if the name or the unit does. |
| Views.ShoppingList | backend/api/views.py:107-112 | Definition: the header, then one `name(unit):amount` line per group in order. Its properties are proved in the `ShoppingList*` lemmas. |
| Views.ShoppingListLines | backend/api/views.py:107-112 | The loop lists every group exactly once, after the header. |
| Views.ShoppingListReadsBack | backend/api/views.py:107-114 | The file splits back into the header and exactly one line per group, as long as no name or unit holds a newline. |
| Views.ShoppingListAmounts | backend/api/views.py:110-112 | Each group's line in the list reads back as that group's total. |
| Views.ShoppingListNoTrailingNewline | backend/api/views.py:114 | The file never ends with a newline. |
| Views.DownloadShoppingCart | backend/api/views.py:99-117 | 400 iff the user has no cart row, otherwise 200. The body is the joined list of every group's total, each total the plain sum over the cart's recipes, and the filename is `<username>_shopping_list.txt`. |
| Validators.Allowed | backend/recipes/validators.py:11 | Definition: membership in the class `[\w.@+-]`. |
| Text.DecimalString | backend/api/views.py:112 | Definition: `str(n)` for an amount in the f-string; a non-empty string of digits with no leading zero other than `0` itself. |
| Text.ParseInt | backend/api/serializers.py:144 | Definition: `int(s)` on a string: an optional sign then ASCII digits, `None` (a ValueError) otherwise. CPython's 4300-digit limit is not modelled (see "## Left out"). |
| Text.JoinLines | backend/api/views.py:114 | Definition: `'\n'.join(lines)`. |
| Text.SplitLines | backend/api/views.py:114 | Definition: `split('\n')`, the reference inverse of the join, proved so in `SplitJoinRoundTrip`. |
| Models.Consistent | backend/recipes/models.py:17-229 | Definition: every `unique=True` field and `UniqueConstraint`, the `VALUE_VALIDATOR` minimum on `cooking_time` and `amount`, and every foreign key (a recipe's author may be `None`). |
| Models.Store.Valid | backend/recipes/models.py:17-229 | Definition: the store's tables satisfy `Consistent`. |
| Models.RecipesNotBy | backend/recipes/models.py:115-121 | The recipe table without a user's recipes: exactly the recipes whose author is not that user, each unchanged. |
| Models.TagLinks | backend/api/serializers.py:204 | Definition: one `Recipe_Tags` row per given tag, all for the given recipe, in order. |
| Models.AmountRows | backend/api/serializers.py:205-210 | Definition: one `Recipe_Ingredients` row per (ingredient, amount) pair, all for the given recipe, in order. |
| Serializers.PyInt | backend/api/serializers.py:144 | Definition: Python's `int(v)` on a JSON value: an integer stays itself, a string is parsed with ValueError on failure, and `null` is a TypeError. CPython's 4300-digit limit on strings is not modelled (see "## Left out"). |
| Serializers.TagIds | backend/api/serializers.py:144 | The converted tag ids, one per raw id and in request order. |
| Serializers.RecipeValidation | backend/api/serializers.py:133-198 | Definition: the checks of `validate` in source order, each raising at its first failing element. It is the reference that `ValidateRecipe` is proved equal to, and `ValidationAcceptsExactly` and `ValidatedContents` state its meaning. |
| Views.HasAvatar | backend/api/views.py:221 | Definition: `if user.avatar`, a stored name that is present and non-empty. |
| Views.CartCount | backend/api/views.py:103-104 | Definition: how many of the user's cart rows name a recipe, which is how often the join repeats one of its ingredient rows. |
| Views.GroupTotal | backend/api/views.py:103-106 | Definition: `Sum('recipe__amount')` for one (name, unit) group over the join, each ingredient row counted once per matching cart row. |
| Views.CartGroups | backend/api/views.py:103-105 | Definition: the (name, unit) groups the query returns, those with at least one row reached through the user's cart. |
| Views.CartTotals | backend/api/views.py:103-106 | Definition: the query's result, each returned group with its summed amount. |
| Views.CartRecipeTotal | backend/api/views.py:103-106 | Definition: the plain sum of the group's amounts over the recipes in the cart, each counted once. `GroupTotalOfUniqueCart` proves the query equals it. |
| Views.GroupTotalOutsideCart | backend/api/views.py:103-106 | Ingredient rows of recipes outside the user's cart add nothing to any group's total. |
| Views.AddedRowsOutsideCartKeepTotals | backend/api/views.py:103-106 | Adding ingredient rows for recipes outside the user's cart, such as a newly created recipe's, leaves every total of the user's list unchanged. |
| Views.ShoppingLine | backend/api/views.py:109-112 | Definition: one line, `name(unit):amount`. |
| Views.ShoppingListHasNoNewline | backend/api/views.py:107-112 | No line of the list holds a newline when no name or unit does. |
| Views.HasCart | backend/api/views.py:101 | Definition: `user.shopping_cart.exists()`, at least one cart row of the user. |

## Left out

- Serializers.PyInt: models `int()` on integers, on strings of an optional sign and ASCII digits, and on `null`. Surrounding whitespace, underscores, non-ASCII digits, and JSON floats and booleans (`int(2.5)`, `int(true)`) are not modelled. CPython's default limit of 4300 digits on `int()` of a string (`int_max_str_digits`) is not modelled. A longer string raises a ValueError there but is converted here. In the source that ValueError makes a longer amount an uncaught error (serializers.py:180), and makes a longer tag or ingredient id a not-found error showing the raw string (serializers.py:146, :163).
- Text.ParseInt: converts a digit string of any length; the 4300-digit ValueError of CPython's `int()` is not modelled (see the Serializers.PyInt line).
- Text.DecimalString: gives the digits of every natural number. CPython's `str()` raises a ValueError past the same 4300-digit limit, which would make the download view fail for an astronomically large total; that failure is not modelled, and `Text.DecimalStringRoundTrip` and `Serializers.PyIntOfDecimal` hold only below the limit in CPython.
- Request bodies: `tags` and `ingredients` are modelled only as JSON lists, and ingredient entries only as objects. Other shapes are not modelled, and their outcomes vary. An empty string, `0`, `{}` or `false` fails the emptiness check with the handled `TagsRequired` or `IngredientsRequired`. A non-empty string of tags such as `"12"` is iterated character by character, so it can pass when tags 1 and 2 exist. A non-empty object of tags is read as its keys. A non-empty string or object of ingredients, or an entry that is not an object, raises an uncaught TypeError.
- Serializers.ValidatedIsStorable: assumes `VALUE_VALIDATOR <= 1`. Its value lives in recipes/constans.py, which is not part of this model. `validate` checks only `amount > 0` and `bulk_create` runs no field validators, so a larger constant would let an amount below the minimum reach the database.
- Serializers.Update: partial updates (`PATCH`, which the `ModelViewSet` routes to `partial_update`) are not modelled. A partial update may omit `name`, `text` or `cooking_time`, and `ModelSerializer.update` then keeps their old values. The model always replaces the whole row, because `ValidRecipe` carries every field. The acting user overwrites `author`, as `ModelSerializer.update` does with the validated `author`. `@transaction.atomic` is not modelled beyond this: the permission check comes before any write, and under `Storable` no later write can fail.
- Serializers.ValidateRecipe: validation errors carry no message text. The Russian messages are not modelled; only the error kind and the shown id are.
- The column ranges of `PositiveSmallIntegerField` and `PositiveIntegerField` (database limits, not code) are not modelled. `pub_date`, the `-pub_date` ordering, `first_name`, `last_name` and passwords are not modelled either.
- The order of rows a query returns is not modelled. The validated tags follow the request order, and the shopping list's group order is whatever `ShoppingListLines` picks.
- Views.DownloadShoppingCart: the `Content-Disposition` header text and content type are not modelled; the filename is.
- The add paths for favorites, the cart and subscriptions (views.py:55-62, 77-84, 162-175), `get_link` and short links, and the subscriptions listing are not modelled. They delegate to serializers not shown or to fields absent from models.py.
- Image decoding, file storage and the avatar file deletion are not modelled; `avatar` is its stored name.
- Authentication, permissions (`IsAuthorOrReadOnly`), pagination and the request context are not modelled. The acting user and the staff flag are parameters, and every view assumes an authenticated user.
- Models.Store: the username validator is not re-run by the store. A username's validity is a property of user creation, which this model leaves out.
- backend/api/filters.py, both urls.py files, admin.py and create_admin.py are not part of this model.
