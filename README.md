# Genre-tag bookkeeping of the song-upload form

This project models the local state of the song-upload page (`App` in
`src/App.jsx`): the draft song metadata (title, album, artist and the
pending genre text) and the list of genre tags attached to it, together
with the handlers that change them.

- `genre_form.dfy`, module `GenreForm`: the values. A tag is
  `Genre(id, title)`, the draft is `Inputs(title, album, artist, genre)`,
  and the page state is `FormState(genres, inputs)`. The expressions the
  handlers evaluate are pure functions: `HasTitle` is the `some` test of
  the Add button, `WithoutId` is the `filter` of the remove button,
  `SetField` is the object spread of an input's `onChange`. `AddGenre`,
  `RemoveGenre` and `EditField` are the three transitions. `Step` and `Run`
  apply a list of user actions to a state. The lemmas state what the
  transitions guarantee.
- `app.dfy`, module `AppComponent`: the component itself, a class `App`
  with the mutable fields `genres` and `inputs`. Each handler is a method
  that updates those fields. Each method's `ensures` ties the new state to
  `GenreForm.Step` on the old state, and says outright what changed.

What the model shows:

- The Add button never creates two tags with the same title. The comparison
  is exact and case-sensitive, and the empty text is a title like any other.
  This holds for every sequence of user actions from the initial form.
- A refused add changes nothing. The pending text is not cleared in that case.
- A successful add appends exactly one tag `{id: length + 1, title: pending
  text}` behind the unchanged old tags. It clears only the pending text.
- Removal deletes every tag with the given id and keeps the others in their
  order, each as often as before. It is idempotent, and removing an absent
  id changes nothing.
- Tag ids are not unique. They are guaranteed to equal positions as long as
  nothing has been removed. After adding "a" and "b", removing tag 1 and
  adding "c", two tags carry id 2, and removing id 2 then drops both.

The code does not trim the pending text or reject an empty one.
`EmptyAndBlankTitlesAccepted` shows that `""` and `"   "` are added as
tags.

## Model

| member | source | states |
|---|---|---|
| GenreForm.HasTitle | src/App.jsx:22 | true exactly when some tag's title equals the text (exact, case-sensitive comparison) |
| GenreForm.WithoutId | src/App.jsx:42 | no remaining tag has the id; the length drops by the number of tags carrying it; the result is a subsequence of the input (order kept) |
| GenreForm.WithoutIdKeepsOthers | src/App.jsx:42 | every tag with another id is kept exactly as often as it occurred, and no tag with the id remains |
| GenreForm.AddGenre | src/App.jsx:19-38 | a title already present leaves the state unchanged; otherwise the list grows by one, the old tags are an unchanged prefix, the last tag is {length + 1, pending text}, the pending text becomes "" and title, album and artist are kept; afterwards the text is always a title in the list |
| GenreForm.RemoveGenre | src/App.jsx:40-44 | the draft is unchanged; no tag carries the id; the length drops by the count of that id; the remaining tags keep their order |
| GenreForm.SetField | src/App.jsx:57-91 | the edited field takes the new value and every other field of the draft keeps its value |
| GenreForm.EditField | src/App.jsx:57-91 | a field edit leaves the tag list unchanged and changes only that one field of the draft |
| GenreForm.Initial | src/App.jsx:6-12 | the initial form has no tags and the draft {title "", album "Single", artist "", genre ""}, which has no duplicate titles |
| GenreForm.AddGenrePreservesNoDuplicates | src/App.jsx:22-31 | an add keeps tag titles pairwise distinct |
| GenreForm.WithoutIdPreservesNoDuplicates | src/App.jsx:42 | a removal keeps tag titles pairwise distinct |
| GenreForm.StepPreservesNoDuplicates | src/App.jsx:19-44 | every user action keeps tag titles pairwise distinct |
| GenreForm.RunPreservesNoDuplicates | src/App.jsx:19-44 | any sequence of user actions keeps tag titles pairwise distinct |
| GenreForm.ReachableHasNoDuplicates | src/App.jsx:6-44 | every state reachable from the initial form has pairwise distinct tag titles |
| GenreForm.WithoutAbsentId | src/App.jsx:42 | removing an id no tag carries leaves the list unchanged |
| GenreForm.WithoutIdIdempotent | src/App.jsx:42 | filtering out an id twice equals filtering it out once |
| GenreForm.RemoveGenreIdempotent | src/App.jsx:40-44 | removing the same id twice gives the same state as removing it once |
| GenreForm.WithoutIdAppend | src/App.jsx:42 | removal distributes over concatenation, so the kept tags of each part stay in place and in order |
| GenreForm.RemovePresentDistinctId | src/App.jsx:42 | when ids are distinct, removing a present id removes exactly one tag |
| GenreForm.RunWithoutRemovalNumbersIds | src/App.jsx:27-31 | while no tag is removed, each tag's id is its position counted from one |
| GenreForm.WithoutRemovalIdsDistinct | src/App.jsx:27-31 | from the initial form, ids are pairwise distinct as long as no tag is removed |
| GenreForm.DuplicateIdAfterRemoval | src/App.jsx:27-42 | add "a", add "b", remove 1, add "c" yields [{2,"b"},{2,"c"}], and removing id 2 then empties the list |
| GenreForm.EmptyAndBlankTitlesAccepted | src/App.jsx:22-31 | the empty text and a text of spaces are each appended as tags (no trimming, no emptiness check) |
| GenreForm.SecondAddOfSameTitleIsNoOp | src/App.jsx:22-24 | adding "lofi" twice yields the single tag {1,"lofi"} and leaves the pending text "lofi" in the draft |
| AppComponent.App.constructor | src/App.jsx:6-12 | the component starts with no tags and the draft {"", "Single", "", ""}, satisfying the invariant |
| AppComponent.App.AddGenre | src/App.jsx:19-38 | the new state is the Add transition of the old one: unchanged when the title exists, otherwise one tag appended and the pending text cleared; keeps the no-duplicate-titles invariant |
| AppComponent.App.RemoveGenre | src/App.jsx:40-44 | the new list is the old list without the tags carrying the id, the draft is unchanged, and the invariant is kept |
| AppComponent.App.EditTitle | src/App.jsx:57-60 | only the draft's title changes; the tag list is untouched |
| AppComponent.App.EditAlbum | src/App.jsx:67-70 | only the draft's album changes; the tag list is untouched |
| AppComponent.App.EditArtist | src/App.jsx:77-80 | only the draft's artist changes; the tag list is untouched |
| AppComponent.App.EditGenre | src/App.jsx:88-91 | only the pending genre text changes; the tag list is untouched and no tag is added |
| AppComponent.DuplicateIdSession | src/App.jsx:27-43 | on the component itself, add "a", add "b", remove 1 and add "c" leave two tags whose ids are both 2 |

## Left out

- Sign-in (`signInHandler`, the Supabase client import): an OAuth call to an external service with no local logic.
- Rendering: the JSX, the CSS classes and the `Genre` display component are interface only. A tag's remove button is modelled as calling `RemoveGenre` with that tag's id.
- Browser events: `e.preventDefault()` and the event objects are left out. Handlers take the id or the new text directly.
- React's asynchronous, batched state updates: each handler is one atomic transition. The source's `addGenreHandler` computes the id from the `genres` of the current render but appends through a functional updater. Two adds batched within one render are therefore not modelled.
- The submission sequence (row insert, signed-URL uploads, row patch) and file selection do not appear in `src/App.jsx`. They would be network I/O in any case.
- Numbers: ids are unbounded integers. JavaScript's double-precision limit on `genres.length + 1` is not modelled, since it cannot be reached by a list held in a page.
- Strings: titles are sequences of characters compared element by element, as `===` compares UTF-16 code units. No normalisation or case folding is done, and none is modelled.
