/** The recipe being composed in the form (the component's `recipe` state)
    and the pure updates its edit handlers apply to it. Each handler in the
    component replaces the whole value with a spread-copy; each function here
    returns that new value. */
module Drafts {

  datatype Option<+T> = None | Some(value: T)

  /** The object URL the browser hands out for a selected image file. The form
      never looks inside it, so it is an opaque string here. */
  type ImageRef = string

  /** One ingredient row; it has no identity beyond its position in the draft. */
  datatype Ingredient = Ingredient(name: string, quantity: string, unit: string)

  /** The three keys an ingredient input can edit. */
  datatype IngredientKey = Name | Quantity | Unit

  /** The six scalar inputs bound to the change handler by their `name`. */
  datatype Field = Title | Description | Serving | Difficulty | Category | CuisineType

  datatype Draft = Draft(
    title: string,
    description: string,
    serving: string,
    difficulty: string,
    category: string,
    cuisineType: string,
    ingredients: seq<Ingredient>,
    image: Option<ImageRef>)

  /** The row appended by "Add Ingredient" and used in the empty template. */
  const BlankIngredient: Ingredient := Ingredient("", "", "")

  /** The initial state of the form and the state it is reset to after a
      submission: every text empty, one blank row, no image. */
  const EmptyDraft: Draft := Draft("", "", "", "", "", "", [BlankIngredient], None)

  function Get(d: Draft, f: Field): string {
    match f
    case Title => d.title
    case Description => d.description
    case Serving => d.serving
    case Difficulty => d.difficulty
    case Category => d.category
    case CuisineType => d.cuisineType
  }

  function GetKey(ing: Ingredient, k: IngredientKey): string {
    match k
    case Name => ing.name
    case Quantity => ing.quantity
    case Unit => ing.unit
  }

  /** Two drafts agree on everything except their ingredient rows. */
  predicate SameHeader(d: Draft, e: Draft) {
    (forall f :: Get(d, f) == Get(e, f)) && d.image == e.image
  }

  /** The six scalar fields, the rows and the image are all there is to a draft. */
  lemma DraftExtensionality(d: Draft, e: Draft)
    requires SameHeader(d, e) && d.ingredients == e.ingredients
    ensures d == e
  {
    assert Get(d, Title) == Get(e, Title) && Get(d, Description) == Get(e, Description);
    assert Get(d, Serving) == Get(e, Serving) && Get(d, Difficulty) == Get(e, Difficulty);
    assert Get(d, Category) == Get(e, Category) && Get(d, CuisineType) == Get(e, CuisineType);
  }

  /** handleRecipeChange: `{...prev, [name]: value}` for one of the six inputs. */
  function ChangeField(d: Draft, f: Field, value: string): (r: Draft)
    ensures Get(r, f) == value
    ensures forall g :: g != f ==> Get(r, g) == Get(d, g)
    ensures r.ingredients == d.ingredients && r.image == d.image
  {
    match f
    case Title => d.(title := value)
    case Description => d.(description := value)
    case Serving => d.(serving := value)
    case Difficulty => d.(difficulty := value)
    case Category => d.(category := value)
    case CuisineType => d.(cuisineType := value)
  }

  /** Writing back the value a field already holds leaves the draft as it was:
      the frame of ChangeField covers the whole draft. */
  lemma ChangeFieldSameValue(d: Draft, f: Field)
    ensures ChangeField(d, f, Get(d, f)) == d
  {
    DraftExtensionality(ChangeField(d, f, Get(d, f)), d);
  }

  /** handleImageUpload: `selected` is the object URL of the first chosen file,
      or None when the file list is empty. For None the component's updater
      throws (creating a URL for no file) and the component fails; the model
      deliberately makes that case a no-op instead. */
  function UploadImage(d: Draft, selected: Option<ImageRef>): (r: Draft)
    ensures forall f :: Get(r, f) == Get(d, f)
    ensures r.ingredients == d.ingredients
    ensures selected.Some? ==> r.image == selected
    ensures selected.None? ==> r == d
  {
    if selected.Some? then d.(image := selected) else d
  }

  /** `{...ingredient, [key]: value}` */
  function SetKey(ing: Ingredient, k: IngredientKey, value: string): (r: Ingredient)
    ensures GetKey(r, k) == value
    ensures forall j :: j != k ==> GetKey(r, j) == GetKey(ing, j)
  {
    match k
    case Name => ing.(name := value)
    case Quantity => ing.(quantity := value)
    case Unit => ing.(unit := value)
  }

  /** handleIngredientChange: map over the rows, rewriting the one whose
      position equals `index`. An index that matches no position leaves every
      row as it was. */
  function ChangeIngredient(d: Draft, index: int, k: IngredientKey, value: string): (r: Draft)
    ensures SameHeader(r, d)
    ensures |r.ingredients| == |d.ingredients|
    ensures forall i :: 0 <= i < |d.ingredients| && i != index ==> r.ingredients[i] == d.ingredients[i]
    ensures 0 <= index < |d.ingredients| ==>
              GetKey(r.ingredients[index], k) == value &&
              forall j :: j != k ==> GetKey(r.ingredients[index], j) == GetKey(d.ingredients[index], j)
    ensures !(0 <= index < |d.ingredients|) ==> r == d
  {
    var rows := seq(|d.ingredients|, i requires 0 <= i < |d.ingredients| =>
                  if i == index then SetKey(d.ingredients[i], k, value) else d.ingredients[i]);
    assert !(0 <= index < |d.ingredients|) ==> rows == d.ingredients;
    d.(ingredients := rows)
  }

  /** addIngredient: `[...prev.ingredients, {name: '', quantity: '', unit: ''}]`. */
  function AddIngredient(d: Draft): (r: Draft)
    ensures SameHeader(r, d)
    ensures |r.ingredients| == |d.ingredients| + 1
    ensures r.ingredients[..|d.ingredients|] == d.ingredients
    ensures r.ingredients[|d.ingredients|] == BlankIngredient
  {
    d.(ingredients := d.ingredients + [BlankIngredient])
  }

  /** `s.filter((_, i) => i !== index)`: walks the sequence keeping every
      element whose position differs from `index`; `index` counts down as the
      walk moves right, so it reaches 0 exactly at the matching position. */
  function DropPosition<T>(s: seq<T>, index: int): (r: seq<T>)
    ensures 0 <= index < |s| ==> r == s[..index] + s[index + 1..]
    ensures !(0 <= index < |s|) ==> r == s
    decreases |s|
  {
    if s == [] then []
    else
      var rest := DropPosition(s[1..], index - 1);
      assert 0 < index < |s| ==> s[..index] == [s[0]] + s[1..][..index - 1];
      assert s == [s[0]] + s[1..];
      (if index == 0 then [] else [s[0]]) + rest
  }

  /** removeIngredient: the rows without the one at `index`, in their order.
      Nothing stops the last row from going, so the rows may become empty. */
  function RemoveIngredient(d: Draft, index: int): (r: Draft)
    ensures SameHeader(r, d)
    ensures 0 <= index < |d.ingredients| ==>
              |r.ingredients| == |d.ingredients| - 1 &&
              r.ingredients == d.ingredients[..index] + d.ingredients[index + 1..]
    ensures !(0 <= index < |d.ingredients|) ==> r == d
  {
    d.(ingredients := DropPosition(d.ingredients, index))
  }
}
