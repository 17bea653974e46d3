/**
 * The page component: it holds the genre-tag list and the draft as mutable
 * state, and its event handlers replace that state one step at a time. Each
 * handler is specified by the matching transition of GenreForm.
 */
module AppComponent {
  import opened GenreForm

  class App {
    var genres: seq<Genre>
    var inputs: Inputs

    /** The component's state as a value. */
    function Snapshot(): FormState
      reads this
    {
      FormState(genres, inputs)
    }

    /** The invariant the Add button keeps: tag titles are pairwise distinct. */
    ghost predicate Valid()
      reads this
    {
      NoDuplicateTitles(genres)
    }

    /** The page is mounted with no tags and the draft album set to "Single". */
    constructor ()
      ensures Snapshot() == Initial()
      ensures genres == [] && inputs == Inputs("", "Single", "", "")
      ensures Valid()
    {
      genres := [];
      inputs := Inputs("", "Single", "", "");
    }

    /** The Add button: append the pending text as a new tag unless a tag already has that title. */
    method AddGenre()
      modifies this
      ensures Snapshot() == Step(old(Snapshot()), AddGenreClicked)
      ensures old(HasTitle(genres, inputs.genre)) ==> genres == old(genres) && inputs == old(inputs)
      ensures !old(HasTitle(genres, inputs.genre)) ==>
                && genres == old(genres) + [Genre(|old(genres)| + 1, old(inputs.genre))]
                && inputs == old(inputs).(genre := "")
      ensures old(Valid()) ==> Valid()
    {
      ghost var before := Snapshot();
      var alreadyExists := HasTitle(genres, inputs.genre);
      if alreadyExists {
        return;
      }
      var newGenre := Genre(|genres| + 1, inputs.genre);
      genres := genres + [newGenre];
      inputs := inputs.(genre := "");
      if NoDuplicateTitles(before.genres) {
        AddGenrePreservesNoDuplicates(before);
      }
    }

    /** The remove button of a tag: keep only the tags whose id differs from `id`. */
    method RemoveGenre(id: int)
      modifies this
      ensures Snapshot() == Step(old(Snapshot()), RemoveGenreClicked(id))
      ensures genres == WithoutId(old(genres), id) && inputs == old(inputs)
      ensures old(Valid()) ==> Valid()
    {
      ghost var before := genres;
      genres := WithoutId(genres, id);
      if NoDuplicateTitles(before) {
        WithoutIdPreservesNoDuplicates(before, id);
      }
    }

    /** The title input. */
    method EditTitle(value: string)
      modifies this
      ensures Snapshot() == Step(old(Snapshot()), FieldEdited(Title, value))
      ensures inputs == old(inputs).(title := value) && genres == old(genres)
      ensures old(Valid()) ==> Valid()
    {
      inputs := inputs.(title := value);
    }

    /** The album input. */
    method EditAlbum(value: string)
      modifies this
      ensures Snapshot() == Step(old(Snapshot()), FieldEdited(Album, value))
      ensures inputs == old(inputs).(album := value) && genres == old(genres)
      ensures old(Valid()) ==> Valid()
    {
      inputs := inputs.(album := value);
    }

    /** The artist input. */
    method EditArtist(value: string)
      modifies this
      ensures Snapshot() == Step(old(Snapshot()), FieldEdited(Artist, value))
      ensures inputs == old(inputs).(artist := value) && genres == old(genres)
      ensures old(Valid()) ==> Valid()
    {
      inputs := inputs.(artist := value);
    }

    /** The pending-genre input; editing it does not add a tag. */
    method EditGenre(value: string)
      modifies this
      ensures Snapshot() == Step(old(Snapshot()), FieldEdited(PendingGenre, value))
      ensures inputs == old(inputs).(genre := value) && genres == old(genres)
      ensures old(Valid()) ==> Valid()
    {
      inputs := inputs.(genre := value);
    }
  }

  /**
   * A session on the component: two tags are added, the first is removed and
   * a third is added, after which two tags carry id 2.
   */
  method DuplicateIdSession() returns (ids: seq<int>)
    ensures ids == [2, 2]
  {
    var app := new App();
    app.EditGenre("a");
    app.AddGenre();
    app.EditGenre("b");
    app.AddGenre();
    assert app.genres == [Genre(1, "a"), Genre(2, "b")];
    app.RemoveGenre(1);
    assert app.genres == [Genre(2, "b")] by {
      assert WithoutId([Genre(2, "b")], 1) == [Genre(2, "b")];
    }
    app.EditGenre("c");
    app.AddGenre();
    ids := [app.genres[0].id, app.genres[1].id];
  }
}
