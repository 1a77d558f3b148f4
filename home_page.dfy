/**
 * The page (src/app/page.tsx): which view is open, the selected category,
 * the cached list of categories and its loading flag.
 */
module HomePage {
  import opened Wrappers
  import opened Records
  import opened Lists
  import opened CategoryList

  datatype View = HomeView | CreateView | PlayView

  /** What the page renders. */
  datatype Page =
    | GameScreen(category: Category)
    | CreateForm
    | LoadingCategories
    | CategoryGrid(list: ListView)

  function PageOf(view: View, selected: Option<Category>, isLoading: bool,
                  categories: seq<Category>): Page
  {
    if view == PlayView && selected.Some? then GameScreen(selected.value)
    else if view == CreateView then CreateForm
    else if isLoading then LoadingCategories
    else CategoryGrid(Render(categories))
  }

  function IdIsNot(id: string): Category -> bool {
    (c: Category) => c.id != id
  }

  /** `categories.filter(cat => cat._id !== id)`. */
  function WithoutId(categories: seq<Category>, id: string): seq<Category> {
    Filter(categories, IdIsNot(id))
  }

  /** The game screen is shown exactly when the view is "play" and a
      category is selected; "play" without a selection falls back to the
      home list. */
  lemma GameShownIff(view: View, selected: Option<Category>, isLoading: bool,
                     categories: seq<Category>)
    ensures PageOf(view, selected, isLoading, categories).GameScreen? <==>
      view == PlayView && selected.Some?
    ensures PageOf(view, selected, isLoading, categories).GameScreen? ==>
      PageOf(view, selected, isLoading, categories).category == selected.value
    ensures view == PlayView && selected.None? ==>
      PageOf(view, selected, isLoading, categories) ==
        if isLoading then LoadingCategories else CategoryGrid(Render(categories))
  {
  }

  /** Outside the game the page shows the form exactly in the create view,
      and otherwise the loading text while the list loads and the card grid
      of the cached list once it has. */
  lemma OtherPagesIff(view: View, selected: Option<Category>, isLoading: bool,
                      categories: seq<Category>)
    ensures PageOf(view, selected, isLoading, categories).CreateForm? <==> view == CreateView
    ensures PageOf(view, selected, isLoading, categories).LoadingCategories? <==>
      view != CreateView && !(view == PlayView && selected.Some?) && isLoading
    ensures PageOf(view, selected, isLoading, categories).CategoryGrid? ==>
      PageOf(view, selected, isLoading, categories).list == Render(categories)
  {
  }

  /** After a delete no entry has the id; every entry with another id keeps
      each of its occurrences; and the survivors keep their order. */
  lemma WithoutIdEffect(categories: seq<Category>, id: string)
    ensures forall i :: 0 <= i < |WithoutId(categories, id)| ==> WithoutId(categories, id)[i].id != id
    ensures forall c: Category :: c.id != id ==> multiset(WithoutId(categories, id))[c] == multiset(categories)[c]
    ensures forall c: Category :: c in WithoutId(categories, id) ==> c in categories
  {
    forall c: Category | c.id != id
      ensures multiset(WithoutId(categories, id))[c] == multiset(categories)[c]
    {
      FilterCount(categories, IdIsNot(id), c);
    }
  }

  lemma WithoutIdOrder(a: seq<Category>, b: seq<Category>, id: string)
    ensures WithoutId(a + b, id) == WithoutId(a, id) + WithoutId(b, id)
    ensures (forall i :: 0 <= i < |a| ==> a[i].id != id) ==> WithoutId(a, id) == a
  {
    FilterConcat(a, b, IdIsNot(id));
    if forall i :: 0 <= i < |a| ==> a[i].id != id {
      FilterKeepsAll(a, IdIsNot(id));
    }
  }

  class Home {
    var categories: seq<Category>
    var view: View
    var selectedCategory: Option<Category>
    var isLoading: bool

    /** A category is selected exactly while the game is open. */
    predicate Valid()
      reads this
    {
      (view == PlayView) == selectedCategory.Some?
    }

    function Page(): Page
      reads this
    {
      PageOf(view, selectedCategory, isLoading, categories)
    }

    constructor ()
      ensures categories == [] && view == HomeView && selectedCategory == None && isLoading
      ensures Valid() && Page() == LoadingCategories
    {
      categories, view, selectedCategory, isLoading := [], HomeView, None, true;
    }

    /** `fetchCategories`: the list is replaced by the response on success
        and kept on failure; either way loading is over. */
    method FetchCategories(fetched: Option<seq<Category>>)
      modifies this
      ensures categories == if fetched.Some? then fetched.value else old(categories)
      ensures !isLoading
      ensures view == old(view) && selectedCategory == old(selectedCategory)
    {
      if fetched.Some? {
        categories := fetched.value;
      }
      isLoading := false;
    }

    /** `handlePlay`, from a card's Play button. */
    method HandlePlay(category: Category)
      requires Valid() && Page().CategoryGrid? && category in categories
      modifies this
      ensures Valid()
      ensures selectedCategory == Some(category) && view == PlayView
      ensures Page() == GameScreen(category)
      ensures categories == old(categories) && isLoading == old(isLoading)
    {
      selectedCategory := Some(category);
      view := PlayView;
    }

    /** The game screen's `onExit`. */
    method ExitGame()
      requires Valid() && Page().GameScreen?
      modifies this
      ensures Valid()
      ensures view == HomeView && selectedCategory == None
      ensures !Page().GameScreen? && !Page().CreateForm?
      ensures categories == old(categories) && isLoading == old(isLoading)
    {
      view := HomeView;
      selectedCategory := None;
    }

    /** `handleDelete`, from a card's delete button: the cached list loses
        the entries with that id only when the server answered `ok`. */
    method HandleDelete(id: string, result: FetchResult)
      requires Valid() && Page().CategoryGrid?
      modifies this
      ensures Valid()
      ensures categories == if result == Responded(true) then WithoutId(old(categories), id) else old(categories)
      ensures view == old(view) && selectedCategory == old(selectedCategory) && isLoading == old(isLoading)
    {
      if result.Responded? && result.ok {
        categories := WithoutId(categories, id);
      }
    }

    /** The Create Category button. */
    method OpenCreate()
      requires Valid() && (Page().CategoryGrid? || Page().LoadingCategories?)
      modifies this
      ensures Valid()
      ensures view == CreateView && Page() == CreateForm
      ensures categories == old(categories) && selectedCategory == old(selectedCategory) && isLoading == old(isLoading)
    {
      view := CreateView;
    }

    /** The form's `onCancel`. */
    method CancelCreate()
      requires Valid() && Page().CreateForm?
      modifies this
      ensures Valid()
      ensures view == HomeView
      ensures categories == old(categories) && selectedCategory == old(selectedCategory) && isLoading == old(isLoading)
    {
      view := HomeView;
    }

    /** `handleCreateSuccess`: back to the list, which is fetched again. */
    method HandleCreateSuccess(fetched: Option<seq<Category>>)
      requires Valid() && Page().CreateForm?
      modifies this
      ensures Valid()
      ensures view == HomeView && !isLoading
      ensures categories == if fetched.Some? then fetched.value else old(categories)
      ensures selectedCategory == old(selectedCategory)
      ensures Page() == CategoryGrid(Render(categories))
    {
      FetchCategories(fetched);
      view := HomeView;
    }
  }
}
