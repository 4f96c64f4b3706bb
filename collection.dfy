/** The submitted recipes (the component's `recipeList` state): snapshots of a
    draft, each with an identifier, in submission order. */
module Collection {
  import opened Drafts

  /** Stands for the string `crypto.randomUUID()` returns; the caller supplies it. */
  type RecipeId = string

  datatype Recipe = Recipe(
    id: RecipeId,
    title: string,
    description: string,
    serving: string,
    difficulty: string,
    category: string,
    cuisineType: string,
    ingredients: seq<Ingredient>,
    image: Option<ImageRef>)

  /** The submitted fields of a recipe, without its identifier. */
  function Content(r: Recipe): Draft {
    Draft(r.title, r.description, r.serving, r.difficulty, r.category, r.cuisineType,
          r.ingredients, r.image)
  }

  /** The entry addRecipe builds: the draft copied field by field plus the id. */
  function Snapshot(d: Draft, id: RecipeId): (r: Recipe)
    ensures r.id == id && Content(r) == d
  {
    Recipe(id, d.title, d.description, d.serving, d.difficulty, d.category, d.cuisineType,
           d.ingredients, d.image)
  }

  function Ids(list: seq<Recipe>): set<RecipeId> {
    set r | r in list :: r.id
  }

  /** No two entries share an identifier. */
  predicate DistinctIds(list: seq<Recipe>) {
    forall i, j :: 0 <= i < j < |list| ==> list[i].id != list[j].id
  }

  /** addRecipe on the list: `[...prevRecipeList, {id, ...recipe}]`. */
  function Submit(list: seq<Recipe>, d: Draft, id: RecipeId): (r: seq<Recipe>)
    ensures |r| == |list| + 1 && r[..|list|] == list
    ensures r[|list|].id == id && Content(r[|list|]) == d
    ensures Ids(r) == Ids(list) + {id}
    ensures DistinctIds(list) && id !in Ids(list) ==> DistinctIds(r)
  {
    var r := list + [Snapshot(d, id)];
    assert r[|list|] in r;
    assert forall x :: x in r <==> x in list || x == r[|list|];
    assert forall i :: 0 <= i < |list| ==> list[i] in list;
    r
  }

  /** removeRecipe: `prev.filter(recipe => recipe.id !== id)`. */
  function WithoutId(list: seq<Recipe>, id: RecipeId): (r: seq<Recipe>)
    ensures forall x :: x in r <==> x in list && x.id != id
    ensures id !in Ids(r)
    ensures |r| <= |list|
  {
    if list == [] then []
    else if list[0].id == id then WithoutId(list[1..], id)
    else [list[0]] + WithoutId(list[1..], id)
  }

  /** Removing an identifier that is not there changes nothing. */
  lemma {:induction false} WithoutIdAbsent(list: seq<Recipe>, id: RecipeId)
    requires id !in Ids(list)
    ensures WithoutId(list, id) == list
  {
    if list != [] {
      assert list[0] in list;
      assert Ids(list[1..]) <= Ids(list) by {
        forall x | x in list[1..] ensures x in list { }
      }
      WithoutIdAbsent(list[1..], id);
      assert list == [list[0]] + list[1..];
    }
  }

  /** The filter works entry by entry, so it keeps the relative order:
      filtering a concatenation is concatenating the filtered parts. */
  lemma {:induction false} WithoutIdConcat(a: seq<Recipe>, b: seq<Recipe>, id: RecipeId)
    ensures WithoutId(a + b, id) == WithoutId(a, id) + WithoutId(b, id)
  {
    if a == [] {
      assert a + b == b;
    } else {
      assert (a + b)[0] == a[0];
      assert (a + b)[1..] == a[1..] + b;
      WithoutIdConcat(a[1..], b, id);
    }
  }

  /** With distinct identifiers, removing a present one deletes exactly the
      entry that carries it and keeps the others in order. */
  lemma {:induction false} RemovePresent(list: seq<Recipe>, id: RecipeId, k: nat)
    requires DistinctIds(list)
    requires k < |list| && list[k].id == id
    ensures WithoutId(list, id) == list[..k] + list[k + 1..]
    ensures |WithoutId(list, id)| == |list| - 1
  {
    var before, after := list[..k], list[k + 1..];
    AbsentOutside(list, k);
    assert list == before + ([list[k]] + after);
    assert WithoutId([list[k]], id) == [] by {
      assert [list[k]][1..] == [];
    }
    calc {
      WithoutId(list, id);
      { WithoutIdConcat(before, [list[k]] + after, id); }
      WithoutId(before, id) + WithoutId([list[k]] + after, id);
      { WithoutIdConcat([list[k]], after, id); }
      WithoutId(before, id) + WithoutId(after, id);
      { WithoutIdAbsent(before, id); WithoutIdAbsent(after, id); }
      before + after;
    }
  }

  /** With distinct identifiers, the one at position k occurs nowhere else. */
  lemma AbsentOutside(list: seq<Recipe>, k: nat)
    requires DistinctIds(list) && k < |list|
    ensures list[k].id !in Ids(list[..k]) && list[k].id !in Ids(list[k + 1..])
  {
  }

  /** Filtering keeps the identifiers distinct. */
  lemma {:induction false} WithoutIdKeepsDistinct(list: seq<Recipe>, id: RecipeId)
    requires DistinctIds(list)
    ensures DistinctIds(WithoutId(list, id))
  {
    if list != [] {
      var tail := list[1..];
      assert DistinctIds(tail) by {
        forall i, j | 0 <= i < j < |tail| ensures tail[i].id != tail[j].id {
          assert tail[i] == list[i + 1] && tail[j] == list[j + 1];
        }
      }
      WithoutIdKeepsDistinct(tail, id);
      if list[0].id != id {
        var rest := WithoutId(tail, id);
        var r := [list[0]] + rest;
        forall i, j | 0 <= i < j < |r| ensures r[i].id != r[j].id {
          if i == 0 {
            assert r[j] in rest;
            assert r[j] in tail;
            var m :| 0 <= m < |tail| && tail[m] == r[j];
            assert tail[m] == list[m + 1];
          } else {
            assert r[i] == rest[i - 1] && r[j] == rest[j - 1];
          }
        }
      }
    }
  }
}
