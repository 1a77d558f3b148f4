# Charades (Family Edition) — a Dafny model

The application lets a family define named word lists ("categories") and play
charades with one of them: the words come up in a random order, each one is
acted out and judged correct or wrong, and a summary shows the tallies at the
end. This project models, in Dafny, the logic inside its React components and
its Next.js route handler, with the markup, the network and the database
replaced by values:

- `game_screen.dfy` (`GameScreen`): one play-through — the shuffled copy of
  the words, the cursor, the two tallies, the end flag, the handlers
  `handleCorrect`, `handleWrong`, `nextWord`, `restartGame`, the mount
  effect that shuffles, and the choice between the loading, playing and
  summary screens. The state lives in the class `Game`; the same rules on a
  `Session` value (`Next`, `Judged`, `Mounted`, `Restarted`, `Run`,
  `ScreenOf`) carry the lemmas about whole games.
- `category_form.dfy` (`CategoryForm`): the word-list editor — `addWord`,
  `removeWord`, the submit guard and request body, the disabled save button
  and the count label. State in the class `Form`.
- `home_page.dfy` (`HomePage`): the page's view state (`home`, `create`,
  `play`), the selected category, the cached category list with its loading
  flag, and the delete handler's filter. State in the class `Home`.
- `category_list.dfy` (`CategoryList`): the card grid as a pure function —
  empty state, word-count badge, the first four words, "+N more".
- `categories_route.dfy` (`CategoriesRoute`): `GET` and `POST` of
  `/api/categories` over JSON values, the JavaScript truthiness the POST
  check relies on, and an in-memory `categories` collection that issues a
  new identifier per insert.
- `text.dfy` (`Text`): JavaScript's `trim` and decimal rendering of numbers;
  `lists.dfy` (`Lists`): `Array.prototype.filter`; `records.dfy`: the
  category record the browser receives and the outcome of a `fetch`;
  `wrappers.dfy`: `Option`.

The shuffle `[...words].sort(() => Math.random() - 0.5)` is modelled with its
randomness as a parameter: `draws` picks which remaining word comes next.
`PickOrder` always yields a rearrangement of the words (same multiset), and
every rearrangement is reachable (`ShuffleIsAnyPermutation`), so the model is
exactly "some permutation, chosen by chance"; the source list is a value and
is never changed.

The model follows the code as written; in particular:

- On the last word `nextWord` only sets `gameEnded`; the cursor stays on the
  last index. The invariant is therefore
  `correct + wrong == currentIndex + (gameEnded ? 1 : 0)` with
  `currentIndex < length`, not `cursor == length` at the end.
- Judging after the end raises no error: the summary screen simply has no
  judging buttons. The model's `HandleCorrect`/`HandleWrong` require the
  playing screen, which is the only place they can be called from.
- The server does not trim: any truthy `name` (also `" "`, a number, an
  object) and any non-empty array `words` (also `[""]`) are accepted.
- The shuffle is a random-comparator sort, not a uniform shuffle.
- GET sends the stored fields with `_id` as a string; POST answers with
  `_id`, `name`, `words` and a message, not with `createdAt`.

## Model

| member | source | states |
|---|---|---|
| `Text.LeadingSpace` | src/components/category-form.tsx:22 | the count of leading characters dropped by `trim`: all of them are whitespace and the next one, if any, is not |
| `Text.TrailingSpace` | src/components/category-form.tsx:22 | the count of trailing characters dropped by `trim`: all of them are whitespace and the one before them, if any, is not |
| `Text.TrimStart` | src/components/category-form.tsx:22 | result is a suffix of the input, what was dropped is all whitespace, and it does not start with whitespace |
| `Text.TrimEnd` | src/components/category-form.tsx:22 | result is a prefix of the input, what was dropped is all whitespace, and it does not end with whitespace |
| `Text.Trim` | src/components/category-form.tsx:22 | `trim()` leaves no whitespace at either end and never lengthens the string |
| `Text.TrimSlice` | src/components/category-form.tsx:22 | `trim()` is the stretch of the input that starts right after the leading whitespace, and only whitespace lies before and after it; with `Trim`'s own contract this pins the result down completely |
| `Text.TrimOfTrimmed` | src/components/category-form.tsx:22-23 | a string already without whitespace at its ends is its own trim |
| `Text.TrimIdempotent` | src/components/category-form.tsx:22-23 | trimming twice is trimming once, so a trimmed entry compares equal to its re-trim |
| `Text.TrimEmptyIff` | src/components/category-form.tsx:22 | the trimmed string is empty (falsy) exactly when the input is all whitespace |
| `Text.Decimal` | src/components/category-form.tsx:114 | the decimal rendering of a count has at least one character and only digits, and starts with `0` exactly for zero (no leading zeros) |
| `Text.DecimalRoundTrip` | src/app/api/categories/route.ts:43 | reading a decimal rendering back gives the number |
| `Text.DecimalInjective` | src/app/api/categories/route.ts:43 | distinct numbers render to distinct strings |
| `Lists.Filter` | src/components/category-form.tsx:29 | `filter` keeps only elements that pass, never adds elements, never lengthens |
| `Lists.FilterConcat` | src/app/page.tsx:51 | filtering preserves order: filtering a concatenation concatenates the filtered parts |
| `Lists.FilterCount` | src/components/category-form.tsx:29 | a passing element keeps all its occurrences, a failing one loses all of them |
| `Lists.FilterKeepsAll` | src/app/page.tsx:51 | when every element passes, the list is unchanged |
| `Lists.FilterDistinct` | src/components/category-form.tsx:29 | filtering a list without repeats yields one without repeats |
| `GameScreen.PickOrder` | src/components/game-screen.tsx:28 | the shuffled copy has the same length and the same multiset of words as the source |
| `GameScreen.PickOrderReaches` | src/components/game-screen.tsx:51 | for every rearrangement of the words there are draws that produce it |
| `GameScreen.ShuffleIsAnyPermutation` | src/components/game-screen.tsx:28 | a sequence can come out of the shuffle exactly when it is a rearrangement of the source |
| `GameScreen.MountedValid` | src/components/game-screen.tsx:26-30 | `Mounted` (the mount effect on a session) establishes `Inv`, the session invariant: after the mount shuffle the session invariant holds; the screen stays on Loading exactly when the category has no words, and is the playing screen otherwise |
| `GameScreen.JudgedStep` | src/components/game-screen.tsx:32-48 | `Judged` (a handler on a session) and `Next` (`nextWord` on a session), one judgment: the matching tally +1, the other unchanged; on the last word the game ends with the cursor unchanged, otherwise the cursor moves by one and the game goes on; invariant kept |
| `GameScreen.PlayingShowsCurrentWord` | src/components/game-screen.tsx:127-139 | while playing the shown word is `shuffledWords[currentIndex]` (in bounds) and the progress `currentIndex + 1 / length` stays within the total |
| `GameScreen.ScreenChoice` | src/components/game-screen.tsx:59-161 | `ScreenOf`, the screen a session renders: Loading exactly for an empty word list, the summary exactly when words exist and the game has ended, the playing screen otherwise; the summary shows both tallies and the word count |
| `GameScreen.RunPlaying` | src/components/game-screen.tsx:32-48 | fewer judgments than remaining words: still playing, the cursor moved by one per judgment, the tallies count the judgments of each kind |
| `GameScreen.RunToEnd` | src/components/game-screen.tsx:42-48 | exactly as many judgments as remaining words: the game has ended on the last index and the tallies count every judgment |
| `GameScreen.PlayThrough` | src/components/game-screen.tsx:67-110 | from a fresh session of n >= 1 words each of the first n judgments is made on the playing screen, and after the n-th the summary shows tallies summing to n = the number of shuffled words |
| `GameScreen.RestartedValid` | src/components/game-screen.tsx:50-57 | `Restarted` (`restartGame` on a session) zeroes the cursor and both tallies, clears the end flag and installs a rearrangement of the source words |
| `GameScreen.Game.constructor` | src/components/game-screen.tsx:20-24 | the session starts with no words, cursor 0, tallies 0, not ended, on the Loading screen |
| `GameScreen.Game.ShuffleOnMount` | src/components/game-screen.tsx:26-30 | the words become a rearrangement of the category's words; the rest of the state is untouched and valid |
| `GameScreen.Game.NextWord` | src/components/game-screen.tsx:42-48 | if `currentIndex + 1 >= length` the game ends and the cursor stays, otherwise the cursor advances and the end flag is left as it was; words and tallies unchanged |
| `GameScreen.Game.HandleCorrect` | src/components/game-screen.tsx:32-35 | `correct` +1, `wrong` unchanged, then `nextWord`; the session invariant is kept |
| `GameScreen.Game.HandleWrong` | src/components/game-screen.tsx:37-40 | `wrong` +1, `correct` unchanged, then `nextWord`; the session invariant is kept |
| `GameScreen.Game.RestartGame` | src/components/game-screen.tsx:50-57 | new rearrangement of the category's words, cursor and tallies 0, not ended, invariant re-established from any state |
| `CategoryForm.WordNoun` | src/components/category-form.tsx:114 | the label says "word" exactly for a count of 1 and "words" otherwise |
| `CategoryForm.CountLabelReadsBack` | src/components/category-form.tsx:114 | `CountLabel`, the text under the list: the label starts with the word count in decimal |
| `CategoryForm.WithWordWellFormed` | src/components/category-form.tsx:21-26 | adding keeps the list free of repeats with every entry trimmed and non-empty |
| `CategoryForm.WithWordEffect` | src/components/category-form.tsx:22-23 | `Accepts` (the entry trims to something new) and `WithWord` (the list after `addWord`): an accepted entry is appended trimmed at the end; a rejected one changes nothing; earlier entries stay in place; afterwards any non-blank entry is on the list |
| `CategoryForm.BlankEntryRejected` | src/components/category-form.tsx:22 | an empty or all-whitespace entry is never added |
| `CategoryForm.WithWordIdempotent` | src/components/category-form.tsx:22-23 | adding the same entry twice adds it once |
| `CategoryForm.WithoutEffect` | src/components/category-form.tsx:29 | `Without`, the list after `removeWord(w)`:, `w` is absent and every other word keeps all its occurrences |
| `CategoryForm.WithoutWellFormed` | src/components/category-form.tsx:29 | removing keeps the list well formed |
| `CategoryForm.WithoutOrder` | src/components/category-form.tsx:29 | removal keeps the remaining words in their order, and removing an absent word changes nothing |
| `CategoryForm.SubmitEnabledIff` | src/components/category-form.tsx:127 | `SubmitDisabled`, the button's `disabled` expression: the save button is enabled exactly when a request would be sent and none is in flight |
| `CategoryForm.SubmitRequestShape` | src/components/category-form.tsx:40-47 | `SubmitRequest`, the guard and body of `handleSubmit`: a request is sent exactly when the name is not all whitespace and the list is non-empty; it carries the trimmed (non-empty) name and the list |
| `CategoryForm.Form.constructor` | src/components/category-form.tsx:16-19 | name, input and list empty, not loading |
| `CategoryForm.Form.SetCategoryName` | src/components/category-form.tsx:72 | the name box's value is stored; nothing else changes |
| `CategoryForm.Form.SetCurrentWord` | src/components/category-form.tsx:80 | the word box's value is stored; nothing else changes |
| `CategoryForm.Form.AddWord` | src/components/category-form.tsx:21-26 | the list becomes the list with the entry added; the input is cleared only when the entry was added; list stays well formed |
| `CategoryForm.Form.RemoveWord` | src/components/category-form.tsx:28-30 | the list becomes the list without that word; list stays well formed; nothing else changes |
| `CategoryForm.Form.BeginSubmit` | src/components/category-form.tsx:39-47 | returns the request the guard allows (none for a blank name or empty list) and sets the loading flag exactly when one is sent |
| `CategoryForm.Form.FinishSubmit` | src/components/category-form.tsx:49-57 | `onSuccess` is called exactly for an `ok` response; loading is cleared whatever happened |
| `CategoryList.Preview` | src/components/category-list.tsx:46 | at most four words, a prefix of the list, the whole list when it has four or fewer |
| `CategoryList.Render` | src/components/category-list.tsx:20-76 | the empty state exactly for no categories; otherwise one card per category in order, with the name, a badge equal to the word count, the preview and marker of its words, Play passing the category and delete passing its id |
| `CategoryList.PreviewAccountsForAll` | src/components/category-list.tsx:46-53 | with `MoreCount` the N of the marker: "+N more" appears exactly when there are more than four words; the preview has min(4, n) words; preview length plus N is n; preview followed by the rest is the list |
| `HomePage.GameShownIff` | src/app/page.tsx:64-120 | `PageOf`, what the page renders for its state: the game screen is shown exactly when the view is play and a category is selected, and it gets that category; play without a selection shows the home list |
| `HomePage.OtherPagesIff` | src/app/page.tsx:76-120 | with `PageOf`: outside the game the form is shown exactly in the create view, the loading text exactly while loading (and not creating or playing), and otherwise the grid of the cached list |
| `HomePage.WithoutIdEffect` | src/app/page.tsx:51 | `WithoutId`, the delete handler's filter: after it no entry has the id, entries with other ids keep all their occurrences, nothing new appears |
| `HomePage.WithoutIdOrder` | src/app/page.tsx:51 | the survivors keep their order; with no matching id the list is unchanged |
| `HomePage.Home.constructor` | src/app/page.tsx:19-22 | empty list, home view, nothing selected, loading |
| `HomePage.Home.FetchCategories` | src/app/page.tsx:24-34 | the list is replaced by the fetched one on success and kept on failure; loading is false afterwards in both cases |
| `HomePage.Home.HandlePlay` | src/app/page.tsx:40-43 | selects the category and switches to play; the page then shows the game for that category |
| `HomePage.Home.ExitGame` | src/app/page.tsx:68-71 | back to the home view with nothing selected |
| `HomePage.Home.HandleDelete` | src/app/page.tsx:45-56 | on an `ok` response the list loses exactly the entries with that id; otherwise it is unchanged |
| `HomePage.Home.OpenCreate` | src/app/page.tsx:97 | the create button switches to the create view and the form is shown |
| `HomePage.Home.CancelCreate` | src/app/page.tsx:90 | cancel returns to the home view |
| `HomePage.Home.HandleCreateSuccess` | src/app/page.tsx:58-61 | returns to the home view, refreshes the list, loading is false, the grid is shown |
| `CategoriesRoute.Validate` | src/app/api/categories/route.ts:25-33 | the POST check, built from `Truthy` (JavaScript truthiness), `Field` (destructuring) and `Rejects` (the `if` condition): an unparsable or `null` body is a failure (500); 400 exactly when `name` is falsy or `words` is missing, not an array, or empty; an accepted body has a truthy name and a non-empty word array |
| `CategoriesRoute.ValidateStringBody` | src/app/api/categories/route.ts:28-33 | for a body with a string name and an array of words, acceptance is exactly: name non-empty and at least one word, whatever the words contain |
| `CategoriesRoute.BlankNameAccepted` | src/app/api/categories/route.ts:28 | a one-space name with a single empty word is accepted: the server does not trim |
| `CategoriesRoute.MissingWordsRejected` | src/app/api/categories/route.ts:28-33 | a body whose `words` is missing, not an array, or empty is refused with 400 |
| `CategoriesRoute.IdStringInjective` | src/app/api/categories/route.ts:13 | two identifiers give the same string exactly when they are the same |
| `CategoriesRoute.Formatted` | src/app/api/categories/route.ts:11-14 | GET's mapping keeps every record, in order, with `_id` as a string and every other field as stored |
| `CategoriesRoute.FormattedIdsDistinct` | src/app/api/categories/route.ts:11-14 | records with distinct identifiers are sent with distinct string ids |
| `CategoriesRoute.Collection.constructor` | src/app/api/categories/route.ts:8 | the collection starts with no records and no identifier issued, and is valid |
| `CategoriesRoute.Collection.InsertOne` | src/app/api/categories/route.ts:35-40 | appends exactly one record with an identifier never issued before, whose string differs from every stored one |
| `CategoriesRoute.Get` | src/app/api/categories/route.ts:5-21 | 200 with every stored record formatted (distinct ids) when the database is reachable, 500 with the error body otherwise |
| `CategoriesRoute.Post` | src/app/api/categories/route.ts:23-52 | 400 exactly for the rejected bodies, 500 for unreadable bodies and database failures, 200 otherwise; only a 200 writes, appending one record with the given name and words and a fresh id, echoed in the reply with the success message |

## Left out

- Markup, styling, icons and the UI library components: presentation only.
  The category name shown in the game header and summary text is not modelled.
- React mechanics: state updates are sequential assignments. Batched updates
  and stale closures (two taps before a re-render reading the same
  `currentIndex`) are not modelled; nor is the effect re-running when
  `category.words` changes, which cannot happen while the game is open.
- The Enter key handler only calls `addWord` and is modelled as `AddWord`.
- Network calls are replaced by their outcome: `FetchResult` for
  `response.ok` or a thrown error, `Option<seq<Category>>` for the parsed
  category list, `reachable` for the database.
- `HomePage.Home.FetchCategories`: takes the fetched list as already parsed. The
  code stores whatever JSON the response carries, including the error object
  of a 500 reply, which this model cannot represent.
- MongoDB is replaced by an in-memory `Collection`; an ObjectId is a counter
  rendered in decimal rather than 24 hexadecimal digits; `createdAt` is an
  opaque integer and its JSON date form is not modelled.
- Randomness: `Math.random` and how evenly the comparator-based sort spreads
  its orders; only "some permutation" is modelled.
- JSON numbers are modelled as reals; JavaScript's own property lookup
  (inherited properties, getters) is reduced to an object's own fields.
- `console.error` logging.
- The DELETE endpoint called by the page is not part of this model; only the
  page's reaction to its response is.
