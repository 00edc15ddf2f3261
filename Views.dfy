/** The views of backend/api/views.py that change or read the store beyond a
    serializer: removing a favorite, a cart row or a subscription, deleting
    the avatar, and the shopping-list download. Statuses are HTTP codes. */
module Views {
  import opened Common
  import opened Text
  import opened Models

  const Ok: int := 200
  const NoContent: int := 204
  const BadRequest: int := 400
  const NotFound: int := 404

  /** Removing every row equal to one pair keeps a link table's constraints. */
  lemma LinkTableWithout(links: seq<Link>, x: Link, users: set<UserId>, targets: set<int>)
    requires LinkTable(links, users, targets)
    ensures LinkTable(Without(links, x), users, targets)
  {
    WithoutKeepsNoDuplicates(links, x);
    var rest := Without(links, x);
    forall l | l in rest ensures l.user in users && l.target in targets {
      assert multiset(rest)[l] > 0;
      assert l in multiset(links);
    }
  }

  /** `favorite_delete`: 404 for an unknown recipe; otherwise
      `Favorites.objects.filter(user=..., recipe=...).delete()` and 400 when it
      deleted nothing, 204 when it deleted a row. */
  method FavoriteDelete(db: Store, user: UserId, recipe: RecipeId) returns (status: int)
    requires db.Valid()
    modifies db`favorites
    ensures db.Valid()
    ensures recipe !in db.recipes ==> status == NotFound && db.favorites == old(db.favorites)
    ensures recipe in db.recipes ==> multiset(db.favorites) == multiset(old(db.favorites))[Link(user, recipe) := 0]
    ensures recipe in db.recipes ==> (status == NoContent <==> Link(user, recipe) in old(db.favorites))
    ensures recipe in db.recipes ==> (status == BadRequest <==> Link(user, recipe) !in old(db.favorites))
    ensures Link(user, recipe) !in db.favorites
  {
    if recipe !in db.recipes {
      return NotFound;
    }
    var link := Link(user, recipe);
    var deletedCount := multiset(db.favorites)[link];
    LinkTableWithout(db.favorites, link, db.users.Keys, db.recipes.Keys);
    db.favorites := Without(db.favorites, link);
    assert multiset(db.favorites)[link] == 0;
    status := if deletedCount == 0 then BadRequest else NoContent;
  }

  /** `shopping_cart_delete`: the same as `favorite_delete` on the cart. */
  method ShoppingCartDelete(db: Store, user: UserId, recipe: RecipeId) returns (status: int)
    requires db.Valid()
    modifies db`shoppingCart
    ensures db.Valid()
    ensures recipe !in db.recipes ==> status == NotFound && db.shoppingCart == old(db.shoppingCart)
    ensures recipe in db.recipes ==> multiset(db.shoppingCart) == multiset(old(db.shoppingCart))[Link(user, recipe) := 0]
    ensures recipe in db.recipes ==> (status == NoContent <==> Link(user, recipe) in old(db.shoppingCart))
    ensures recipe in db.recipes ==> (status == BadRequest <==> Link(user, recipe) !in old(db.shoppingCart))
    ensures Link(user, recipe) !in db.shoppingCart
  {
    if recipe !in db.recipes {
      return NotFound;
    }
    var link := Link(user, recipe);
    var deletedCount := multiset(db.shoppingCart)[link];
    LinkTableWithout(db.shoppingCart, link, db.users.Keys, db.recipes.Keys);
    db.shoppingCart := Without(db.shoppingCart, link);
    assert multiset(db.shoppingCart)[link] == 0;
    status := if deletedCount == 0 then BadRequest else NoContent;
  }

  /** `unsubscribe`: 404 for an unknown author; otherwise the subscription
      rows of the pair are deleted, 400 when there was none. */
  method Unsubscribe(db: Store, user: UserId, author: UserId) returns (status: int)
    requires db.Valid()
    modifies db`subscriptions
    ensures db.Valid()
    ensures author !in db.users ==> status == NotFound && db.subscriptions == old(db.subscriptions)
    ensures author in db.users ==> multiset(db.subscriptions) == multiset(old(db.subscriptions))[Link(user, author) := 0]
    ensures author in db.users ==> (status == NoContent <==> Link(user, author) in old(db.subscriptions))
    ensures author in db.users ==> (status == BadRequest <==> Link(user, author) !in old(db.subscriptions))
    ensures Link(user, author) !in db.subscriptions
  {
    if author !in db.users {
      return NotFound;
    }
    var link := Link(user, author);
    var deletedCount := multiset(db.subscriptions)[link];
    LinkTableWithout(db.subscriptions, link, db.users.Keys, db.users.Keys);
    db.subscriptions := Without(db.subscriptions, link);
    assert multiset(db.subscriptions)[link] == 0;
    status := if deletedCount == 0 then BadRequest else NoContent;
  }

  /** `if user.avatar:` — a file field is true when it names a file. */
  predicate HasAvatar(u: User)
  {
    u.avatar.Some? && u.avatar.value != ""
  }

  /** `manage_avatar_delete`: a set avatar is cleared (204), otherwise 400. */
  method ManageAvatarDelete(db: Store, user: UserId) returns (status: int)
    requires db.Valid() && user in db.users
    modifies db`users
    ensures db.Valid()
    ensures status == NoContent <==> HasAvatar(old(db.users[user]))
    ensures status == BadRequest <==> !HasAvatar(old(db.users[user]))
    ensures status == NoContent ==> db.users == old(db.users)[user := old(db.users[user]).(avatar := None)]
    ensures status == BadRequest ==> db.users == old(db.users)
    ensures !HasAvatar(db.users[user])
  {
    var u := db.users[user];
    if HasAvatar(u) {
      var cleared := db.users[user := u.(avatar := None)];
      assert cleared.Keys == db.users.Keys;
      db.users := cleared;
      return NoContent;
    }
    return BadRequest;
  }

  /** The `values('name', 'measurement_unit')` grouping of the download. */
  datatype GroupKey = GroupKey(name: string, unit: string)

  function KeyOf(i: Ingredient): GroupKey
  {
    GroupKey(i.name, i.measurementUnit)
  }

  /** How many of the user's cart rows name the recipe: how often the join
      `recipe__recipe__shopping_cart__user` repeats one ingredient row. */
  function CartCount(cart: seq<Link>, user: UserId, recipe: RecipeId): nat
  {
    multiset(cart)[Link(user, recipe)]
  }

  /** `Sum('recipe__amount')` for one group: every ingredient row whose
      ingredient falls in the group, once per matching cart row. */
  function GroupTotal(rows: seq<RecipeIngredient>, ingredients: map<IngredientId, Ingredient>,
                      cart: seq<Link>, user: UserId, key: GroupKey): nat
    decreases |rows|
  {
    if rows == [] then 0
    else
      var row := rows[0];
      (if row.ingredient in ingredients && KeyOf(ingredients[row.ingredient]) == key
       then CartCount(cart, user, row.recipe) * row.amount else 0)
      + GroupTotal(rows[1..], ingredients, cart, user, key)
  }

  /** An ingredient row the join reaches for the user. */
  predicate Joined(row: RecipeIngredient, ingredients: map<IngredientId, Ingredient>, cart: seq<Link>, user: UserId)
  {
    row.ingredient in ingredients && Link(user, row.recipe) in cart
  }

  /** The groups the query returns: those with at least one joined row. */
  function CartGroups(rows: seq<RecipeIngredient>, ingredients: map<IngredientId, Ingredient>,
                      cart: seq<Link>, user: UserId): set<GroupKey>
  {
    set row | row in rows && Joined(row, ingredients, cart, user) :: KeyOf(ingredients[row.ingredient])
  }

  /** The query's result: each group with its summed amount. */
  function CartTotals(rows: seq<RecipeIngredient>, ingredients: map<IngredientId, Ingredient>,
                      cart: seq<Link>, user: UserId): map<GroupKey, nat>
  {
    map key | key in CartGroups(rows, ingredients, cart, user) :: GroupTotal(rows, ingredients, cart, user, key)
  }

  /** The intended reading of the list: the amounts of the group's rows whose
      recipe is in the user's cart, each counted once. */
  function CartRecipeTotal(rows: seq<RecipeIngredient>, ingredients: map<IngredientId, Ingredient>,
                           cart: seq<Link>, user: UserId, key: GroupKey): nat
    decreases |rows|
  {
    if rows == [] then 0
    else
      var row := rows[0];
      (if Joined(row, ingredients, cart, user) && KeyOf(ingredients[row.ingredient]) == key then row.amount else 0)
      + CartRecipeTotal(rows[1..], ingredients, cart, user, key)
  }

  /** Under `usershoppingcart_unique` the join counts every recipe once, so
      the query's sum is the plain sum over the recipes in the cart. */
  lemma {:induction false} GroupTotalOfUniqueCart(rows: seq<RecipeIngredient>, ingredients: map<IngredientId, Ingredient>,
                                                  cart: seq<Link>, user: UserId, key: GroupKey)
    requires NoDuplicates(cart)
    ensures GroupTotal(rows, ingredients, cart, user, key) == CartRecipeTotal(rows, ingredients, cart, user, key)
    decreases |rows|
  {
    if rows != [] {
      GroupTotalOfUniqueCart(rows[1..], ingredients, cart, user, key);
      NoDuplicatesCountAtMostOne(cart, Link(user, rows[0].recipe));
    }
  }

  /** The sum splits over a split of the ingredient table. */
  lemma {:induction false} GroupTotalAppend(rows: seq<RecipeIngredient>, more: seq<RecipeIngredient>,
                                            ingredients: map<IngredientId, Ingredient>, cart: seq<Link>, user: UserId, key: GroupKey)
    ensures GroupTotal(rows + more, ingredients, cart, user, key)
            == GroupTotal(rows, ingredients, cart, user, key) + GroupTotal(more, ingredients, cart, user, key)
    decreases |rows|
  {
    if rows == [] {
      assert rows + more == more;
    } else {
      GroupTotalAppend(rows[1..], more, ingredients, cart, user, key);
      assert (rows + more)[0] == rows[0];
      assert (rows + more)[1..] == rows[1..] + more;
    }
  }

  /** Rows of recipes outside the user's cart add nothing to any group. */
  lemma {:induction false} GroupTotalOutsideCart(rows: seq<RecipeIngredient>, ingredients: map<IngredientId, Ingredient>,
                                                 cart: seq<Link>, user: UserId, key: GroupKey)
    requires forall i :: 0 <= i < |rows| ==> Link(user, rows[i].recipe) !in cart
    ensures GroupTotal(rows, ingredients, cart, user, key) == 0
    decreases |rows|
  {
    if rows != [] {
      assert CartCount(cart, user, rows[0].recipe) == 0;
      GroupTotalOutsideCart(rows[1..], ingredients, cart, user, key);
    }
  }

  /** Ingredient rows added for recipes the user has not put in the cart,
      such as those of a newly created recipe, leave every total of the
      user's list as it was. */
  lemma AddedRowsOutsideCartKeepTotals(rows: seq<RecipeIngredient>, more: seq<RecipeIngredient>,
                                       ingredients: map<IngredientId, Ingredient>, cart: seq<Link>, user: UserId, key: GroupKey)
    requires forall i :: 0 <= i < |more| ==> Link(user, more[i].recipe) !in cart
    ensures GroupTotal(rows + more, ingredients, cart, user, key) == GroupTotal(rows, ingredients, cart, user, key)
  {
    GroupTotalAppend(rows, more, ingredients, cart, user, key);
    GroupTotalOutsideCart(more, ingredients, cart, user, key);
  }

  /** A group's total is at least the amount of any row it joins. */
  lemma {:induction false} GroupTotalAtLeastRow(rows: seq<RecipeIngredient>, ingredients: map<IngredientId, Ingredient>,
                                                cart: seq<Link>, user: UserId, row: RecipeIngredient)
    requires row in rows && Joined(row, ingredients, cart, user)
    ensures GroupTotal(rows, ingredients, cart, user, KeyOf(ingredients[row.ingredient])) >= row.amount
    decreases |rows|
  {
    if rows[0] != row {
      GroupTotalAtLeastRow(rows[1..], ingredients, cart, user, row);
    } else {
      assert multiset(cart)[Link(user, row.recipe)] >= 1;
    }
  }

  /** With every amount at least `minimum`, every listed total is too: no
      group of the list reads zero when amounts are positive. */
  lemma CartTotalsAtLeast(rows: seq<RecipeIngredient>, ingredients: map<IngredientId, Ingredient>,
                          cart: seq<Link>, user: UserId, minimum: nat)
    requires forall row :: row in rows ==> row.amount >= minimum
    ensures forall key :: key in CartTotals(rows, ingredients, cart, user) ==> CartTotals(rows, ingredients, cart, user)[key] >= minimum
  {
    forall key | key in CartTotals(rows, ingredients, cart, user)
      ensures CartTotals(rows, ingredients, cart, user)[key] >= minimum
    {
      var row :| row in rows && Joined(row, ingredients, cart, user) && KeyOf(ingredients[row.ingredient]) == key;
      GroupTotalAtLeastRow(rows, ingredients, cart, user, row);
    }
  }

  /** Because `Ingredient.name` is unique, a group is one ingredient: two
      joined rows in the same group name the same ingredient. */
  lemma GroupIsOneIngredient(db: Store, a: RecipeIngredient, b: RecipeIngredient)
    requires db.Valid() && a.ingredient in db.ingredients && b.ingredient in db.ingredients
    requires KeyOf(db.ingredients[a.ingredient]) == KeyOf(db.ingredients[b.ingredient])
    ensures a.ingredient == b.ingredient
  {
    db.NameAndUnitUnique(a.ingredient, b.ingredient);
  }

  const Header: string := "Список покупок."

  /** One line of the list: `name(unit):amount`. */
  function ShoppingLine(key: GroupKey, amount: nat): string
  {
    key.name + "(" + key.unit + "):" + DecimalString(amount)
  }

  /** The amount reads back from the text after the line's last colon,
      whatever colons the name or unit hold. */
  lemma ShoppingLineAmount(key: GroupKey, amount: nat)
    ensures ParseInt(AfterLast(ShoppingLine(key, amount), ':')) == Some(amount)
  {
    var digits := DecimalString(amount);
    assert ShoppingLine(key, amount) == (key.name + "(" + key.unit + ")") + [':'] + digits;
    AfterLastSeparator(key.name + "(" + key.unit + ")", ':', digits);
    DecimalStringRoundTrip(amount);
  }

  /** A line holds a newline only if the name or the unit does. */
  lemma ShoppingLineNoNewline(key: GroupKey, amount: nat)
    requires NoNewline(key.name) && NoNewline(key.unit)
    ensures NoNewline(ShoppingLine(key, amount))
  {
    var digits := DecimalString(amount);
    NoNewlineConcat(key.name, "(");
    NoNewlineConcat(key.name + "(", key.unit);
    NoNewlineConcat(key.name + "(" + key.unit, "):");
    NoNewlineConcat(key.name + "(" + key.unit + "):", digits);
  }

  /** The list: the header, then one line per group in the given order. */
  function ShoppingList(order: seq<GroupKey>, totals: map<GroupKey, nat>): (lines: seq<string>)
    requires forall i :: 0 <= i < |order| ==> order[i] in totals
    ensures |lines| == |order| + 1 && lines[0] == Header
    ensures forall i :: 0 <= i < |order| ==> lines[i + 1] == ShoppingLine(order[i], totals[order[i]])
  {
    [Header] + seq(|order|, i requires 0 <= i < |order| => ShoppingLine(order[i], totals[order[i]]))
  }

  /** The loop over the query's rows: every group once, in the order the
      rows come (which the query leaves unspecified). */
  method ShoppingListLines(totals: map<GroupKey, nat>) returns (order: seq<GroupKey>, lines: seq<string>)
    ensures NoDuplicates(order) && Elements(order) == totals.Keys
    ensures lines == ShoppingList(order, totals)
  {
    order := [];
    lines := [Header];
    var rest := totals.Keys;
    while rest != {}
      invariant rest <= totals.Keys
      invariant NoDuplicates(order)
      invariant Elements(order) == totals.Keys - rest
      invariant |lines| == |order| + 1 && lines[0] == Header
      invariant forall i :: 0 <= i < |order| ==> order[i] in totals && lines[i + 1] == ShoppingLine(order[i], totals[order[i]])
      decreases |rest|
    {
      var key :| key in rest;
      AppendKeepsNoDuplicates(order, [key]);
      assert Elements(order + [key]) == Elements(order) + {key};
      lines := lines + [ShoppingLine(key, totals[key])];
      order := order + [key];
      rest := rest - {key};
    }
    assert lines == ShoppingList(order, totals);
  }

  /** No line of the list holds a newline when no name or unit does. */
  lemma ShoppingListHasNoNewline(order: seq<GroupKey>, totals: map<GroupKey, nat>)
    requires forall i :: 0 <= i < |order| ==> order[i] in totals
    requires forall key :: key in totals ==> NoNewline(key.name) && NoNewline(key.unit)
    ensures forall i :: 0 <= i < |ShoppingList(order, totals)| ==> NoNewline(ShoppingList(order, totals)[i])
  {
    var lines := ShoppingList(order, totals);
    assert lines[0] == Header && NoNewline(Header);
    forall i | 1 <= i < |lines| ensures NoNewline(lines[i]) {
      ShoppingLineNoNewline(order[i - 1], totals[order[i - 1]]);
    }
  }

  /** The file splits back into its lines: one header and one line per
      group, as long as no name or unit holds a newline. */
  lemma ShoppingListReadsBack(order: seq<GroupKey>, totals: map<GroupKey, nat>)
    requires NoDuplicates(order) && Elements(order) == totals.Keys
    requires forall key :: key in totals ==> NoNewline(key.name) && NoNewline(key.unit)
    ensures |ShoppingList(order, totals)| == |totals| + 1
    ensures SplitLines(JoinLines(ShoppingList(order, totals))) == ShoppingList(order, totals)
  {
    ElementsCardinality(order);
    ShoppingListHasNoNewline(order, totals);
    SplitJoinRoundTrip(ShoppingList(order, totals));
  }

  /** Each group's line reads back as that group's total. */
  lemma ShoppingListAmounts(order: seq<GroupKey>, totals: map<GroupKey, nat>)
    requires forall i :: 0 <= i < |order| ==> order[i] in totals
    ensures forall i :: 0 <= i < |order| ==>
              ParseInt(AfterLast(ShoppingList(order, totals)[i + 1], ':')) == Some(totals[order[i]])
  {
    var lines := ShoppingList(order, totals);
    forall i | 0 <= i < |order| ensures ParseInt(AfterLast(lines[i + 1], ':')) == Some(totals[order[i]]) {
      ShoppingLineAmount(order[i], totals[order[i]]);
    }
  }

  /** The file never ends with a newline: its last line is the header or
      ends with the digits of an amount. */
  lemma ShoppingListNoTrailingNewline(order: seq<GroupKey>, totals: map<GroupKey, nat>)
    requires forall i :: 0 <= i < |order| ==> order[i] in totals
    ensures var body := JoinLines(ShoppingList(order, totals));
      |body| > 0 && body[|body| - 1] != '\n'
  {
    var lines := ShoppingList(order, totals);
    var body := JoinLines(lines);
    var last := lines[|lines| - 1];
    JoinEndsWithLastLine(lines);
    assert body[|body| - 1] == last[|last| - 1];
    if |order| > 0 {
      var key := order[|order| - 1];
      var digits := DecimalString(totals[key]);
      assert last == key.name + "(" + key.unit + "):" + digits;
      assert last[|last| - 1] == digits[|digits| - 1];
    }
  }

  /** `user.shopping_cart.exists()`. */
  predicate HasCart(cart: seq<Link>, user: UserId)
  {
    exists i :: 0 <= i < |cart| && cart[i].user == user
  }

  /** `download_shopping_cart`: 400 with no content when the user's cart is
      empty; otherwise the list of the cart's grouped totals, joined by
      newlines, served as `<username>_shopping_list.txt`. */
  method DownloadShoppingCart(db: Store, user: UserId) returns (status: int, body: string, filename: string, order: seq<GroupKey>)
    requires db.Valid() && user in db.users
    ensures status == BadRequest <==> !HasCart(db.shoppingCart, user)
    ensures status == Ok <==> HasCart(db.shoppingCart, user)
    ensures status == BadRequest ==> body == "" && filename == "" && order == []
    ensures status == Ok ==>
              var totals := CartTotals(db.recipeIngredients, db.ingredients, db.shoppingCart, user);
              && NoDuplicates(order) && Elements(order) == totals.Keys
              && body == JoinLines(ShoppingList(order, totals))
              && filename == db.users[user].username + "_shopping_list.txt"
    ensures status == Ok ==>
              forall key :: key in order ==>
                CartTotals(db.recipeIngredients, db.ingredients, db.shoppingCart, user)[key]
                == CartRecipeTotal(db.recipeIngredients, db.ingredients, db.shoppingCart, user, key)
  {
    var i := 0;
    while i < |db.shoppingCart| && db.shoppingCart[i].user != user
      invariant 0 <= i <= |db.shoppingCart|
      invariant forall j :: 0 <= j < i ==> db.shoppingCart[j].user != user
    {
      i := i + 1;
    }
    if i == |db.shoppingCart| {
      return BadRequest, "", "", [];
    }
    var totals := CartTotals(db.recipeIngredients, db.ingredients, db.shoppingCart, user);
    var lines;
    order, lines := ShoppingListLines(totals);
    forall key | key in order
      ensures totals[key] == CartRecipeTotal(db.recipeIngredients, db.ingredients, db.shoppingCart, user, key)
    {
      GroupTotalOfUniqueCart(db.recipeIngredients, db.ingredients, db.shoppingCart, user, key);
    }
    filename := db.users[user].username + "_shopping_list.txt";
    body := JoinLines(lines);
    status := Ok;
  }
}
