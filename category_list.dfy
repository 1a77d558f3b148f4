/**
 * The grid of category cards (src/components/category-list.tsx), as a pure
 * function of the list of categories.
 */
module CategoryList {
  import opened Wrappers
  import opened Records

  /** How many words a card previews. */
  const PreviewSize: nat := 4

  /** `words.slice(0, 4)`: the first words, at most four, in order. */
  function Preview(words: seq<string>): (r: seq<string>)
    ensures |r| <= PreviewSize
    ensures |r| <= |words| && r == words[..|r|]
    ensures |words| <= PreviewSize ==> r == words
  {
    if |words| <= PreviewSize then words else words[..PreviewSize]
  }

  /** The "+N more" marker, present only when some words are not previewed. */
  function MoreCount(words: seq<string>): Option<nat> {
    if |words| > PreviewSize then Some(|words| - PreviewSize) else None
  }

  datatype Card = Card(
    title: string,
    badge: nat,
    preview: seq<string>,
    more: Option<nat>,
    playWith: Category,
    deleteId: string)

  datatype ListView = EmptyState | Grid(cards: seq<Card>)

  function CardOf(c: Category): Card {
    Card(c.name, |c.words|, Preview(c.words), MoreCount(c.words), c, c.id)
  }

  /** The rendered list: the empty state for no categories, otherwise one
      card per category, in order, whose badge counts its words, whose Play
      button passes the whole category and whose delete button passes its
      id. */
  function Render(categories: seq<Category>): (v: ListView)
    ensures v.EmptyState? <==> |categories| == 0
    ensures v.Grid? ==> |v.cards| == |categories|
    ensures v.Grid? ==> forall i :: 0 <= i < |categories| ==>
      v.cards[i].title == categories[i].name &&
      v.cards[i].badge == |categories[i].words| &&
      v.cards[i].playWith == categories[i] &&
      v.cards[i].deleteId == categories[i].id &&
      v.cards[i].preview == Preview(categories[i].words) &&
      v.cards[i].more == MoreCount(categories[i].words)
  {
    if |categories| == 0 then EmptyState
    else Grid(seq(|categories|, i requires 0 <= i < |categories| => CardOf(categories[i])))
  }

  /** The preview and the marker together account for every word: the
      marker appears exactly when there are more than four words, it counts
      the ones left out, and the preview is the first min(4, n) of them. */
  lemma PreviewAccountsForAll(words: seq<string>)
    ensures MoreCount(words).Some? <==> |words| > PreviewSize
    ensures |Preview(words)| == if |words| < PreviewSize then |words| else PreviewSize
    ensures |Preview(words)| + (if MoreCount(words).Some? then MoreCount(words).value else 0) == |words|
    ensures Preview(words) + words[|Preview(words)|..] == words
  {
  }
}
