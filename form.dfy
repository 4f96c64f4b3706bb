/** The form component's two state cells and its handlers. Each handler replaces
    a whole cell with the value of one of the pure updates in Drafts and
    Collection; each is taken as one atomic step. */
module Form {
  import opened Drafts
  import opened Collection

  class RecipeForm {
    /** `recipeList`: the submitted recipes, in submission order. */
    var recipeList: seq<Recipe>
    /** `recipe`: the draft being edited. */
    var recipe: Draft
    /** Every identifier ever handed to AddRecipe; stands for the guarantee
        that a freshly generated UUID has not been seen before. */
    ghost var issued: set<RecipeId>

    ghost predicate Valid()
      reads this
    {
      DistinctIds(recipeList) && Ids(recipeList) <= issued
    }

    /** `useState([])` and `useState({...empty template...})`. */
    constructor ()
      ensures Valid()
      ensures recipeList == [] && recipe == EmptyDraft && issued == {}
    {
      recipeList := [];
      recipe := EmptyDraft;
      issued := {};
    }

    method HandleRecipeChange(f: Field, value: string)
      requires Valid()
      modifies this
      ensures Valid()
      ensures recipe == ChangeField(old(recipe), f, value)
      ensures recipeList == old(recipeList) && issued == old(issued)
    {
      recipe := ChangeField(recipe, f, value);
    }

    method HandleImageUpload(selected: Option<ImageRef>)
      requires Valid()
      modifies this
      ensures Valid()
      ensures recipe == UploadImage(old(recipe), selected)
      ensures recipeList == old(recipeList) && issued == old(issued)
    {
      recipe := UploadImage(recipe, selected);
    }

    /** Appends a snapshot of the draft under the fresh identifier `id`, then
        resets the draft to the empty template. */
    method AddRecipe(id: RecipeId)
      requires Valid()
      requires id !in issued
      modifies this
      ensures Valid()
      ensures recipeList == Submit(old(recipeList), old(recipe), id)
      ensures |recipeList| == |old(recipeList)| + 1 && recipeList[..|old(recipeList)|] == old(recipeList)
      ensures recipeList[|old(recipeList)|].id == id && Content(recipeList[|old(recipeList)|]) == old(recipe)
      ensures recipe == EmptyDraft
      ensures issued == old(issued) + {id}
    {
      recipeList := Submit(recipeList, recipe, id);
      recipe := EmptyDraft;
      issued := issued + {id};
    }

    method RemoveRecipe(id: RecipeId)
      requires Valid()
      modifies this
      ensures Valid()
      ensures recipeList == WithoutId(old(recipeList), id)
      ensures id in Ids(old(recipeList)) ==> |recipeList| == |old(recipeList)| - 1
      ensures id !in Ids(old(recipeList)) ==> recipeList == old(recipeList)
      ensures recipe == old(recipe) && issued == old(issued)
    {
      if id in Ids(recipeList) {
        var k :| 0 <= k < |recipeList| && recipeList[k].id == id;
        RemovePresent(recipeList, id, k);
      } else {
        WithoutIdAbsent(recipeList, id);
      }
      WithoutIdKeepsDistinct(recipeList, id);
      recipeList := WithoutId(recipeList, id);
    }

    method HandleIngredientChange(index: int, k: IngredientKey, value: string)
      requires Valid()
      modifies this
      ensures Valid()
      ensures recipe == ChangeIngredient(old(recipe), index, k, value)
      ensures recipeList == old(recipeList) && issued == old(issued)
    {
      recipe := ChangeIngredient(recipe, index, k, value);
    }

    method AddIngredientRow()
      requires Valid()
      modifies this
      ensures Valid()
      ensures recipe == AddIngredient(old(recipe))
      ensures recipeList == old(recipeList) && issued == old(issued)
    {
      recipe := AddIngredient(recipe);
    }

    method RemoveIngredientRow(index: int)
      requires Valid()
      modifies this
      ensures Valid()
      ensures recipe == RemoveIngredient(old(recipe), index)
      ensures recipeList == old(recipeList) && issued == old(issued)
    {
      recipe := RemoveIngredient(recipe, index);
    }
  }

  /** A session as a caller sees it: fill the form with two rows, submit it,
      then remove the submitted recipe again. */
  method SoupSession(x: RecipeId)
  {
    var form := new RecipeForm();
    form.AddIngredientRow();
    assert |form.recipe.ingredients| == 2;
    form.HandleRecipeChange(Title, "Soup");
    form.HandleRecipeChange(Description, "Hot soup");
    form.HandleRecipeChange(Serving, "4");
    form.HandleRecipeChange(Difficulty, "easy");
    form.HandleRecipeChange(Category, "mainCourse");
    form.HandleRecipeChange(CuisineType, "american");
    form.HandleIngredientChange(0, Name, "water");
    form.HandleIngredientChange(0, Quantity, "2");
    form.HandleIngredientChange(0, Unit, "cups");
    form.HandleIngredientChange(1, Name, "salt");
    form.HandleIngredientChange(1, Quantity, "1");
    form.HandleIngredientChange(1, Unit, "teaspoons");
    var filled := form.recipe;
    assert Get(filled, Title) == "Soup" && Get(filled, CuisineType) == "american";
    assert filled.ingredients == [Ingredient("water", "2", "cups"), Ingredient("salt", "1", "teaspoons")];

    form.AddRecipe(x);
    assert |form.recipeList| == 1 && form.recipeList[0].id == x;
    assert Content(form.recipeList[0]) == filled;
    assert form.recipe == EmptyDraft;

    assert x in Ids(form.recipeList) by { assert form.recipeList[0] in form.recipeList; }
    form.RemoveRecipe(x);
    assert form.recipeList == [];
  }
}
