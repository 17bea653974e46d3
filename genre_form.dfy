/**
 * The form state of the song-upload page: the draft song metadata and the
 * list of genre tags the user has attached to it, with the pure values that
 * the page's event handlers compute from the current state.
 */
module GenreForm {

  /** One genre tag: a locally assigned id and the tag text. */
  datatype Genre = Genre(id: int, title: string)

  /** The draft typed into the form; `genre` is the pending, not yet added, tag text. */
  datatype Inputs = Inputs(title: string, album: string, artist: string, genre: string)

  /** The whole state held by the page: the tag list and the draft. */
  datatype FormState = FormState(genres: seq<Genre>, inputs: Inputs)

  /** The four text inputs of the form, each bound to one field of the draft. */
  datatype Field = Title | Album | Artist | PendingGenre

  /** What the user can do to the form. */
  datatype Action =
    | AddGenreClicked
    | RemoveGenreClicked(id: int)
    | FieldEdited(field: Field, value: string)

  /** The state when the page is first shown: no tags, and a draft whose album is "Single". */
  function Initial(): (r: FormState)
    ensures r.genres == [] && NoDuplicateTitles(r.genres)
    ensures Get(r.inputs, Title) == "" && Get(r.inputs, Album) == "Single"
    ensures Get(r.inputs, Artist) == "" && Get(r.inputs, PendingGenre) == ""
  {
    FormState([], Inputs("", "Single", "", ""))
  }

  // ---------------------------------------------------------------------
  // Tag-list queries and the no-duplicate-titles invariant
  // ---------------------------------------------------------------------

  /** No two tags of the list carry the same title (exact, case-sensitive). */
  ghost predicate NoDuplicateTitles(gs: seq<Genre>) {
    forall i, j :: 0 <= i < j < |gs| ==> gs[i].title != gs[j].title
  }

  /** Whether some tag of the list has exactly the title `t`. */
  function HasTitle(gs: seq<Genre>, t: string): (r: bool)
    ensures r <==> exists i :: 0 <= i < |gs| && gs[i].title == t
  {
    if gs == [] then false
    else if gs[0].title == t then true
    else
      var rest := HasTitle(gs[1..], t);
      assert forall i :: 1 <= i < |gs| ==> gs[i] == gs[1..][i - 1];
      rest
  }

  /** The number of tags in the list whose id is `id`. */
  function CountId(gs: seq<Genre>, id: int): (n: nat)
    ensures n <= |gs|
    ensures n == 0 <==> forall i :: 0 <= i < |gs| ==> gs[i].id != id
  {
    if gs == [] then 0
    else
      assert forall i :: 1 <= i < |gs| ==> gs[i] == gs[1..][i - 1];
      (if gs[0].id == id then 1 else 0) + CountId(gs[1..], id)
  }

  /** `a` is `b` with some elements deleted, the rest kept in their order. */
  predicate IsSubsequence(a: seq<Genre>, b: seq<Genre>) {
    if a == [] then true
    else if b == [] then false
    else if a[0] == b[0] then IsSubsequence(a[1..], b[1..])
    else IsSubsequence(a, b[1..])
  }

  /** The list without every tag whose id is `id`, the others in their original order. */
  function WithoutId(gs: seq<Genre>, id: int): (r: seq<Genre>)
    ensures |r| == |gs| - CountId(gs, id)
    ensures forall i :: 0 <= i < |r| ==> r[i].id != id
    ensures IsSubsequence(r, gs)
  {
    if gs == [] then []
    else
      var rest := WithoutId(gs[1..], id);
      if gs[0].id == id then
        assert rest != [] ==> rest[0] != gs[0];
        rest
      else
        [gs[0]] + rest
  }

  /** Exactly the tags with another id survive, each as often as it occurred. */
  lemma {:induction false} WithoutIdKeepsOthers(gs: seq<Genre>, id: int)
    ensures forall g :: multiset(WithoutId(gs, id))[g] == if g.id == id then 0 else multiset(gs)[g]
    ensures forall g :: g in WithoutId(gs, id) <==> g in gs && g.id != id
  {
    if gs != [] {
      WithoutIdKeepsOthers(gs[1..], id);
      assert gs == [gs[0]] + gs[1..];
    }
  }

  // ---------------------------------------------------------------------
  // The three kinds of transition
  // ---------------------------------------------------------------------

  /**
   * The Add button: a pending text equal to an existing title changes nothing;
   * any other text (empty and untrimmed included) is appended as a tag with
   * id `length + 1`, and the pending text is cleared.
   */
  function AddGenre(st: FormState): (r: FormState)
    ensures HasTitle(st.genres, st.inputs.genre) ==> r == st
    ensures !HasTitle(st.genres, st.inputs.genre) ==>
              && |r.genres| == |st.genres| + 1
              && r.genres[..|st.genres|] == st.genres
              && r.genres[|st.genres|] == Genre(|st.genres| + 1, st.inputs.genre)
              && r.inputs.genre == ""
              && r.inputs.title == st.inputs.title
              && r.inputs.album == st.inputs.album
              && r.inputs.artist == st.inputs.artist
    ensures HasTitle(r.genres, st.inputs.genre)
  {
    var alreadyExists := HasTitle(st.genres, st.inputs.genre);
    if alreadyExists then st
    else
      var newGenre := Genre(|st.genres| + 1, st.inputs.genre);
      var r := FormState(st.genres + [newGenre], st.inputs.(genre := ""));
      assert r.genres[|st.genres|].title == st.inputs.genre;
      r
  }

  /** The remove button of a tag: every tag carrying `id` goes, the draft stays. */
  function RemoveGenre(st: FormState, id: int): (r: FormState)
    ensures r.inputs == st.inputs
    ensures forall i :: 0 <= i < |r.genres| ==> r.genres[i].id != id
    ensures |r.genres| == |st.genres| - CountId(st.genres, id)
    ensures IsSubsequence(r.genres, st.genres)
  {
    FormState(WithoutId(st.genres, id), st.inputs)
  }

  /** The value of one field of the draft. */
  function Get(inputs: Inputs, f: Field): string {
    match f
    case Title => inputs.title
    case Album => inputs.album
    case Artist => inputs.artist
    case PendingGenre => inputs.genre
  }

  /** An edit of one text input: that field takes `v`, every other field keeps its value. */
  function SetField(inputs: Inputs, f: Field, v: string): (r: Inputs)
    ensures Get(r, f) == v
    ensures forall f' :: f' != f ==> Get(r, f') == Get(inputs, f')
  {
    match f
    case Title => inputs.(title := v)
    case Album => inputs.(album := v)
    case Artist => inputs.(artist := v)
    case PendingGenre => inputs.(genre := v)
  }

  /** A field edit never touches the tag list. */
  function EditField(st: FormState, f: Field, v: string): (r: FormState)
    ensures r.genres == st.genres
    ensures Get(r.inputs, f) == v
    ensures forall f' :: f' != f ==> Get(r.inputs, f') == Get(st.inputs, f')
  {
    st.(inputs := SetField(st.inputs, f, v))
  }

  function Step(st: FormState, a: Action): FormState {
    match a
    case AddGenreClicked => AddGenre(st)
    case RemoveGenreClicked(id) => RemoveGenre(st, id)
    case FieldEdited(f, v) => EditField(st, f, v)
  }

  /** The state after the actions, performed one after another. */
  function Run(st: FormState, actions: seq<Action>): FormState
    decreases |actions|
  {
    if actions == [] then st else Run(Step(st, actions[0]), actions[1..])
  }

  // ---------------------------------------------------------------------
  // Properties
  // ---------------------------------------------------------------------

  lemma AddGenrePreservesNoDuplicates(st: FormState)
    requires NoDuplicateTitles(st.genres)
    ensures NoDuplicateTitles(AddGenre(st).genres)
  {
  }

  /** A list stays free of duplicate titles when a tag whose title it lacks is put in front. */
  lemma ConsNoDuplicates(g: Genre, gs: seq<Genre>)
    requires NoDuplicateTitles(gs)
    requires forall h :: h in gs ==> h.title != g.title
    ensures NoDuplicateTitles([g] + gs)
  {
  }

  lemma {:induction false} WithoutIdPreservesNoDuplicates(gs: seq<Genre>, id: int)
    requires NoDuplicateTitles(gs)
    ensures NoDuplicateTitles(WithoutId(gs, id))
  {
    if gs != [] {
      var tail := gs[1..];
      assert NoDuplicateTitles(tail) by {
        forall i, j | 0 <= i < j < |tail| ensures tail[i].title != tail[j].title {
          assert tail[i] == gs[i + 1] && tail[j] == gs[j + 1];
        }
      }
      WithoutIdPreservesNoDuplicates(tail, id);
      if gs[0].id != id {
        var rest := WithoutId(tail, id);
        assert forall h :: h in tail ==> h.title != gs[0].title by {
          forall h | h in tail ensures h.title != gs[0].title {
            var k :| 0 <= k < |tail| && tail[k] == h;
            assert gs[k + 1] == h;
          }
        }
        WithoutIdKeepsOthers(tail, id);
        ConsNoDuplicates(gs[0], rest);
      }
    }
  }

  /** Every step keeps the tag titles pairwise distinct. */
  lemma StepPreservesNoDuplicates(st: FormState, a: Action)
    requires NoDuplicateTitles(st.genres)
    ensures NoDuplicateTitles(Step(st, a).genres)
  {
    match a
    case AddGenreClicked => AddGenrePreservesNoDuplicates(st);
    case RemoveGenreClicked(id) => WithoutIdPreservesNoDuplicates(st.genres, id);
    case FieldEdited(_, _) =>
  }

  lemma {:induction false} RunPreservesNoDuplicates(st: FormState, actions: seq<Action>)
    requires NoDuplicateTitles(st.genres)
    ensures NoDuplicateTitles(Run(st, actions).genres)
    decreases |actions|
  {
    if actions != [] {
      StepPreservesNoDuplicates(st, actions[0]);
      RunPreservesNoDuplicates(Step(st, actions[0]), actions[1..]);
    }
  }

  /** Whatever the user does from the initial form, no two tags share a title. */
  lemma ReachableHasNoDuplicates(actions: seq<Action>)
    ensures NoDuplicateTitles(Run(Initial(), actions).genres)
  {
    RunPreservesNoDuplicates(Initial(), actions);
  }

  /** Removing an id that no tag carries leaves the list as it is. */
  lemma {:induction false} WithoutAbsentId(gs: seq<Genre>, id: int)
    requires forall i :: 0 <= i < |gs| ==> gs[i].id != id
    ensures WithoutId(gs, id) == gs
  {
    if gs != [] {
      WithoutAbsentId(gs[1..], id);
    }
  }

  /** Removing the same id twice is the same as removing it once. */
  lemma WithoutIdIdempotent(gs: seq<Genre>, id: int)
    ensures WithoutId(WithoutId(gs, id), id) == WithoutId(gs, id)
  {
  }

  lemma RemoveGenreIdempotent(st: FormState, id: int)
    ensures RemoveGenre(RemoveGenre(st, id), id) == RemoveGenre(st, id)
  {
    WithoutIdIdempotent(st.genres, id);
  }

  /** Removal distributes over concatenation: the kept tags of each part stay in place. */
  lemma {:induction false} WithoutIdAppend(a: seq<Genre>, b: seq<Genre>, id: int)
    ensures WithoutId(a + b, id) == WithoutId(a, id) + WithoutId(b, id)
  {
    if a == [] {
      assert a + b == b;
    } else {
      var ab := a + b;
      assert ab[0] == a[0];
      assert ab[1..] == a[1..] + b;
      WithoutIdAppend(a[1..], b, id);
    }
  }

  /** When ids are distinct, removing a present id takes away exactly one tag. */
  lemma {:induction false} RemovePresentDistinctId(gs: seq<Genre>, id: int)
    requires forall i, j :: 0 <= i < j < |gs| ==> gs[i].id != gs[j].id
    requires exists i :: 0 <= i < |gs| && gs[i].id == id
    ensures |WithoutId(gs, id)| == |gs| - 1
  {
    var tail := gs[1..];
    if gs[0].id == id {
      assert forall i :: 0 <= i < |tail| ==> tail[i] == gs[i + 1];
      assert CountId(tail, id) == 0;
    } else {
      var k :| 0 <= k < |gs| && gs[k].id == id;
      assert tail[k - 1].id == id;
      assert forall i, j :: 0 <= i < j < |tail| ==> tail[i] == gs[i + 1] && tail[j] == gs[j + 1];
      RemovePresentDistinctId(tail, id);
    }
  }

  /** The ids of a list built only by additions are its positions, counted from one. */
  ghost predicate IdsArePositions(gs: seq<Genre>) {
    forall i :: 0 <= i < |gs| ==> gs[i].id == i + 1
  }

  lemma {:induction false} RunWithoutRemovalNumbersIds(st: FormState, actions: seq<Action>)
    requires IdsArePositions(st.genres)
    requires forall k :: 0 <= k < |actions| ==> !actions[k].RemoveGenreClicked?
    ensures IdsArePositions(Run(st, actions).genres)
    decreases |actions|
  {
    if actions != [] {
      var next := Step(st, actions[0]);
      assert IdsArePositions(next.genres);
      assert forall k :: 0 <= k < |actions[1..]| ==> actions[1..][k] == actions[k + 1];
      RunWithoutRemovalNumbersIds(next, actions[1..]);
    }
  }

  /** As long as no tag is removed, no two tags share an id. */
  lemma WithoutRemovalIdsDistinct(actions: seq<Action>)
    requires forall k :: 0 <= k < |actions| ==> !actions[k].RemoveGenreClicked?
    ensures var gs := Run(Initial(), actions).genres;
            forall i, j :: 0 <= i < j < |gs| ==> gs[i].id != gs[j].id
  {
    RunWithoutRemovalNumbersIds(Initial(), actions);
  }

  /** Running two lists of actions is running the first and then the second. */
  lemma {:induction false} RunAppend(st: FormState, xs: seq<Action>, ys: seq<Action>)
    ensures Run(st, xs + ys) == Run(Run(st, xs), ys)
    decreases |xs|
  {
    if xs == [] {
      assert xs + ys == ys;
    } else {
      assert (xs + ys)[0] == xs[0] && (xs + ys)[1..] == xs[1..] + ys;
      RunAppend(Step(st, xs[0]), xs[1..], ys);
    }
  }

  /** Adding "a" and then "b" to the initial form gives tags 1 and 2. */
  lemma TwoTagsAdded()
    ensures Run(Initial(), [FieldEdited(PendingGenre, "a"), AddGenreClicked,
                            FieldEdited(PendingGenre, "b"), AddGenreClicked]).genres
            == [Genre(1, "a"), Genre(2, "b")]
  {
  }

  /**
   * Ids are not unique once a tag has been removed: add "a" and "b", remove
   * tag 1, add "c" and both remaining tags carry id 2; removing id 2 then
   * takes both away.
   */
  lemma DuplicateIdAfterRemoval()
    ensures var st := Run(Initial(), [
                FieldEdited(PendingGenre, "a"), AddGenreClicked,
                FieldEdited(PendingGenre, "b"), AddGenreClicked,
                RemoveGenreClicked(1),
                FieldEdited(PendingGenre, "c"), AddGenreClicked]);
            && st.genres == [Genre(2, "b"), Genre(2, "c")]
            && RemoveGenre(st, 2).genres == []
  {
    var first := [FieldEdited(PendingGenre, "a"), AddGenreClicked,
                  FieldEdited(PendingGenre, "b"), AddGenreClicked];
    var last := [RemoveGenreClicked(1), FieldEdited(PendingGenre, "c"), AddGenreClicked];
    TwoTagsAdded();
    RunAppend(Initial(), first, last);
    RemoveFirstThenAdd(Run(Initial(), first));
    assert WithoutId([Genre(2, "b"), Genre(2, "c")], 2) == [];
  }

  lemma RemoveFirstThenAdd(st: FormState)
    requires st.genres == [Genre(1, "a"), Genre(2, "b")]
    ensures Run(st, [RemoveGenreClicked(1), FieldEdited(PendingGenre, "c"), AddGenreClicked]).genres
            == [Genre(2, "b"), Genre(2, "c")]
  {
    var s5 := RemoveGenre(st, 1);
    assert s5.genres == [Genre(2, "b")] by {
      assert WithoutId([Genre(2, "b")], 1) == [Genre(2, "b")];
    }
    var s6 := EditField(s5, PendingGenre, "c");
    assert !HasTitle(s6.genres, "c");
  }

  /**
   * The pending text is neither trimmed nor checked for emptiness: an empty
   * text and a text of spaces are each added as a tag of their own.
   */
  lemma EmptyAndBlankTitlesAccepted()
    ensures Run(Initial(), [AddGenreClicked, FieldEdited(PendingGenre, "   "), AddGenreClicked]).genres
            == [Genre(1, ""), Genre(2, "   ")]
  {
  }

  /** Adding a title that is already present, twice in a row, yields one tag. */
  lemma SecondAddOfSameTitleIsNoOp()
    ensures var st := Run(Initial(), [
                FieldEdited(Title, "Night"), FieldEdited(Artist, "Kay"),
                FieldEdited(PendingGenre, "lofi"), AddGenreClicked,
                FieldEdited(PendingGenre, "lofi"), AddGenreClicked]);
            && st.genres == [Genre(1, "lofi")]
            && st.inputs == Inputs("Night", "Single", "Kay", "lofi")
  {
  }
}
