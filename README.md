# Recipe submission form: state model

This project models the state core of the `RecipeSubmissionForm` component.
The form holds two pieces of state:

- the **draft** (`recipe`): six text fields (title, description, serving,
  difficulty, category, cuisine type), an ordered list of ingredient rows
  `{name, quantity, unit}` and an optional image;
- the **collection** (`recipeList`): the submitted recipes in submission order,
  each a copy of a draft plus an identifier.

Its handlers edit one draft field, set the image, edit, append or remove an
ingredient row, submit the draft, and remove a submitted recipe by identifier.

The project has three modules:

- `Drafts` (`drafts.dfy`): the draft, its ingredient rows and the pure update
  behind each edit handler. Each update returns the new draft, like the
  component's spread-copies do.
- `Collection` (`collection.dfy`): submitted recipes, the append done by a
  submission, the filter by identifier, and the lemmas about distinct
  identifiers.
- `Form` (`form.dfy`): the class `RecipeForm`. It has the two state cells as
  fields, and one method per handler that assigns the result of the matching
  pure update. `Valid()` is the collection invariant: identifiers are pairwise
  distinct, and each was issued by a submission. `SoupSession` is a client that
  fills the form, submits it and removes the recipe again, with the outcome
  asserted after each step.

Where the component's behaviour differs from a natural reading of its design,
the model follows the code:

- An ingredient edit at an index that matches no row changes nothing. The
  `map` compares each position with the index, so an out-of-range index never
  matches.
- Removing a row can leave the draft with no ingredient rows. Nothing
  enforces a minimum.
- Removing a recipe drops every entry with that identifier, because it is a
  `filter`, not a removal of the first match. Under the distinct-identifier
  invariant the two are the same (`RemovePresent`).
- The submitted entry shares its ingredient array with the draft it came from.
  Every later edit builds a new array rather than writing into the old one, so
  a value copy (which is what Dafny datatypes give) behaves the same.

## Model

| member | source | states |
|---|---|---|
| Drafts.DraftExtensionality | src/components/RecipeSubmissionForm.jsx:7-20 | a draft is fully determined by its six text fields, its ingredient rows and its image, so the `Get`/`SameHeader` frames in the handler contracts leave nothing of the draft unstated |
| Drafts.ChangeFieldSameValue | src/components/RecipeSubmissionForm.jsx:22-27 | writing back the value a field already holds leaves the whole draft unchanged |
| Drafts.ChangeField | src/components/RecipeSubmissionForm.jsx:22-27 | the named field reads back the new value; every other text field, the ingredient rows and the image are unchanged |
| Drafts.UploadImage | src/components/RecipeSubmissionForm.jsx:29-33 | with a selected file the image becomes its reference and nothing else changes; with no file the draft is unchanged |
| Drafts.SetKey | src/components/RecipeSubmissionForm.jsx:82 | the edited key of an ingredient reads back the new value; the other two keys keep theirs |
| Drafts.ChangeIngredient | src/components/RecipeSubmissionForm.jsx:77-85 | the row count and all text fields and the image are kept; every row other than `index` is unchanged; at a valid index only the edited key of that row changes; an out-of-range index leaves the draft exactly as it was |
| Drafts.AddIngredient | src/components/RecipeSubmissionForm.jsx:87-93 | the rows grow by exactly one, the old rows are a prefix of the new ones, and the new last row is blank; everything else is unchanged |
| Drafts.DropPosition | src/components/RecipeSubmissionForm.jsx:98 | filtering out a position equals deleting that element (`s[..i] + s[i+1..]`, order kept) when the position exists, and is the identity otherwise |
| Drafts.RemoveIngredient | src/components/RecipeSubmissionForm.jsx:95-100 | at a valid index the rows lose exactly that row, keeping the order of the rest, and may become empty; at an out-of-range index the draft is unchanged; the text fields and the image are never touched |
| Collection.Snapshot | src/components/RecipeSubmissionForm.jsx:40-50 | the submitted entry carries the given identifier, and its content equals the draft field for field, ingredient rows and image included |
| Collection.Submit | src/components/RecipeSubmissionForm.jsx:38-51 | the list grows by exactly one, the old list is a prefix, the last entry has the new identifier and the draft's content, the identifier set gains exactly the new one, and a fresh identifier keeps identifiers distinct |
| Collection.WithoutId | src/components/RecipeSubmissionForm.jsx:69-74 | an entry survives exactly when it was in the list with a different identifier; the removed identifier no longer occurs; the list never grows |
| Collection.WithoutIdAbsent | src/components/RecipeSubmissionForm.jsx:69-74 | removing an identifier that is not in the list leaves the list unchanged |
| Collection.WithoutIdConcat | src/components/RecipeSubmissionForm.jsx:71-72 | the filter distributes over concatenation, so the survivors keep their relative order |
| Collection.RemovePresent | src/components/RecipeSubmissionForm.jsx:69-74 | with distinct identifiers, removing the identifier at position k deletes exactly that entry, keeps the others in order, and shortens the list by one |
| Collection.WithoutIdKeepsDistinct | src/components/RecipeSubmissionForm.jsx:69-74 | removing by identifier keeps the identifiers pairwise distinct |
| Form.RecipeForm.constructor | src/components/RecipeSubmissionForm.jsx:6-20 | the form starts with an empty list and the empty template (all text empty, one blank row, no image) |
| Form.RecipeForm.HandleRecipeChange | src/components/RecipeSubmissionForm.jsx:22-27 | the draft becomes its field update; the list is untouched |
| Form.RecipeForm.HandleImageUpload | src/components/RecipeSubmissionForm.jsx:29-33 | the draft becomes its image update; the list is untouched |
| Form.RecipeForm.AddRecipe | src/components/RecipeSubmissionForm.jsx:35-67 | the list gains one entry at the end that carries the fresh identifier and equals the pre-submit draft; the old list is a prefix; the draft is then the empty template; identifiers stay distinct |
| Form.RecipeForm.RemoveRecipe | src/components/RecipeSubmissionForm.jsx:69-74 | the list becomes its filter by identifier; it shrinks by exactly one if the identifier was present and is unchanged otherwise; the draft is untouched; identifiers stay distinct |
| Form.RecipeForm.HandleIngredientChange | src/components/RecipeSubmissionForm.jsx:77-85 | the draft becomes its ingredient edit; the list is untouched |
| Form.RecipeForm.AddIngredientRow | src/components/RecipeSubmissionForm.jsx:87-93 | the draft gains a blank row at the end; the list is untouched |
| Form.RecipeForm.RemoveIngredientRow | src/components/RecipeSubmissionForm.jsx:95-100 | the draft loses the row at the index, if there is one; the list is untouched |

## Left out

- Rendering: the form markup and the recipe cards (src/components/RecipeSubmissionForm.jsx:104-226) are presentation only. The markup also decides which handlers a click runs, and that wiring is not modelled. The "Remove" and "Add Ingredient" buttons (lines 194 and 200) have no `type="button"` and sit inside the `<form>`, so a click on one can also submit the form and run addRecipe whenever the browser's validation passes. The handler contracts describe one handler each, not the whole effect of a click.
- Input constraints that the browser enforces: `maxLength`, `min`/`max`, `required` and the option lists of the selects. The handlers store whatever value arrives, so every field stays a plain string.
- `URL.createObjectURL`: a browser call. The image is an opaque reference that the caller supplies.
- Drafts.UploadImage: an empty file list (`None`) is modelled as a no-op, which is a deliberate deviation. In the component, `URL.createObjectURL(undefined)` throws inside the updater passed to the state setter. React re-throws it while rendering, and with no error boundary the component fails instead of keeping its draft.
- `crypto.randomUUID()`: randomness. The identifier is a parameter of `AddRecipe`, which requires that it was never issued before. A ghost set of issued identifiers records this.
- The `if (recipe)` guard in addRecipe: the draft is always an object, so submission is unconditional.
- `e.preventDefault()`, event objects and the stylesheet import: these are DOM plumbing.
- React's batching of state updates: each handler is one atomic step. In particular, addRecipe reads the draft of the current render, which equals the latest draft under this reading.
