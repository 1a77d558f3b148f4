/**
 * The category editor (src/components/category-form.tsx): the list of words
 * being built, the text fields, and the submit request.
 */
module CategoryForm {
  import opened Wrappers
  import opened Text
  import opened Lists
  import opened Records

  /** What the editor keeps true of its word list: every entry is trimmed
      and non-empty, and no entry occurs twice. */
  predicate WellFormed(words: seq<string>) {
    (forall i :: 0 <= i < |words| ==> words[i] != [] && IsTrimmed(words[i])) &&
    Distinct(words)
  }

  /** The test in `addWord`: the trimmed entry is non-empty and new. */
  predicate Accepts(words: seq<string>, entry: string) {
    Trim(entry) != [] && Trim(entry) !in words
  }

  /** The word list after `addWord` with `entry` in the input box. */
  function WithWord(words: seq<string>, entry: string): seq<string> {
    if Accepts(words, entry) then words + [Trim(entry)] else words
  }

  function NotEqualTo(w: string): string -> bool {
    x => x != w
  }

  /** The word list after `removeWord(w)`. */
  function Without(words: seq<string>, w: string): seq<string> {
    Filter(words, NotEqualTo(w))
  }

  /** The body `handleSubmit` posts. */
  datatype Request = Request(name: string, words: seq<string>)

  /** `handleSubmit`'s guard and body: nothing is sent for a blank name or
      an empty list; otherwise the trimmed name and the list as it is. */
  function SubmitRequest(categoryName: string, words: seq<string>): Option<Request> {
    if Trim(categoryName) == [] || |words| == 0 then None
    else Some(Request(Trim(categoryName), words))
  }

  /** The `disabled` expression of the save button. */
  predicate SubmitDisabled(categoryName: string, words: seq<string>, isLoading: bool) {
    Trim(categoryName) == [] || |words| == 0 || isLoading
  }

  /** The noun of the count label: singular exactly for one word. */
  function WordNoun(n: nat): (r: string)
    ensures r == "word" <==> n == 1
    ensures r == "word" || r == "words"
  {
    "word" + (if n != 1 then "s" else "")
  }

  /** The label under the list, e.g. "3 words added". */
  function CountLabel(n: nat): string {
    Decimal(n) + " " + WordNoun(n) + " added"
  }

  // ---------------------------------------------------------------------
  // Properties of the list edits and the submit rules.
  // ---------------------------------------------------------------------

  /** `addWord` keeps the list well formed. */
  lemma WithWordWellFormed(words: seq<string>, entry: string)
    requires WellFormed(words)
    ensures WellFormed(WithWord(words, entry))
  {
  }

  /** `addWord` appends the trimmed entry at the end when it is accepted,
      and otherwise changes nothing; what was there before stays in place.
      After it, a non-blank entry is always on the list. */
  lemma WithWordEffect(words: seq<string>, entry: string)
    ensures var r := WithWord(words, entry);
      (Accepts(words, entry) ==> |r| == |words| + 1 && r[|words|] == Trim(entry)) &&
      (!Accepts(words, entry) ==> r == words) &&
      r[..|words|] == words &&
      (Trim(entry) != [] ==> Trim(entry) in r)
  {
  }

  /** A blank entry — empty or only whitespace — is never added. */
  lemma BlankEntryRejected(words: seq<string>, entry: string)
    requires AllWhitespace(entry)
    ensures WithWord(words, entry) == words
  {
    TrimEmptyIff(entry);
  }

  /** Adding the same entry twice adds it once. */
  lemma WithWordIdempotent(words: seq<string>, entry: string)
    ensures WithWord(WithWord(words, entry), entry) == WithWord(words, entry)
  {
  }

  /** `removeWord(w)`: `w` is gone and every other word keeps every one of
      its occurrences. */
  lemma WithoutEffect(words: seq<string>, w: string)
    ensures w !in Without(words, w)
    ensures forall x :: x != w ==> multiset(Without(words, w))[x] == multiset(words)[x]
  {
    var r := Without(words, w);
    forall x | x != w
      ensures multiset(r)[x] == multiset(words)[x]
    {
      FilterCount(words, NotEqualTo(w), x);
    }
  }

  /** `removeWord` keeps the list well formed. */
  lemma WithoutWellFormed(words: seq<string>, w: string)
    requires WellFormed(words)
    ensures WellFormed(Without(words, w))
  {
    var r := Without(words, w);
    FilterDistinct(words, NotEqualTo(w));
    forall i | 0 <= i < |r| ensures r[i] != [] && IsTrimmed(r[i]) {
      assert r[i] in words;
      var j :| 0 <= j < |words| && words[j] == r[i];
    }
  }

  /** Removing keeps the order: removing from a list split in two is
      removing from each part. A word that is not there is a no-op. */
  lemma WithoutOrder(a: seq<string>, b: seq<string>, w: string)
    ensures Without(a + b, w) == Without(a, w) + Without(b, w)
    ensures w !in a ==> Without(a, w) == a
  {
    FilterConcat(a, b, NotEqualTo(w));
    if w !in a {
      FilterKeepsAll(a, NotEqualTo(w));
    }
  }

  /** The save button is enabled exactly when a request would be sent and
      none is in flight. */
  lemma SubmitEnabledIff(categoryName: string, words: seq<string>, isLoading: bool)
    ensures !SubmitDisabled(categoryName, words, isLoading) <==>
      SubmitRequest(categoryName, words).Some? && !isLoading
  {
  }

  /** A request is sent exactly when the name is not all whitespace and the
      list is not empty; it carries the trimmed name and the list. */
  lemma SubmitRequestShape(categoryName: string, words: seq<string>)
    ensures SubmitRequest(categoryName, words).Some? <==>
      !AllWhitespace(categoryName) && words != []
    ensures SubmitRequest(categoryName, words).Some? ==>
      var r := SubmitRequest(categoryName, words).value;
      r.name == Trim(categoryName) && r.name != [] && IsTrimmed(r.name) && r.words == words
  {
    TrimEmptyIff(categoryName);
  }

  /** The label starts with the count in decimal, which reads back as the
      count. */
  lemma CountLabelReadsBack(n: nat)
    ensures |CountLabel(n)| > |Decimal(n)|
    ensures DecimalValue(CountLabel(n)[..|Decimal(n)|]) == n
  {
    assert CountLabel(n)[..|Decimal(n)|] == Decimal(n);
    DecimalRoundTrip(n);
  }

  // ---------------------------------------------------------------------
  // The component's state.
  // ---------------------------------------------------------------------

  class Form {
    var categoryName: string
    var currentWord: string
    var words: seq<string>
    var isLoading: bool

    predicate Valid()
      reads this
    {
      WellFormed(words)
    }

    constructor ()
      ensures categoryName == [] && currentWord == [] && words == [] && !isLoading
      ensures Valid()
    {
      categoryName, currentWord, words, isLoading := [], [], [], false;
    }

    /** The `onChange` of the name box. */
    method SetCategoryName(value: string)
      modifies this
      ensures categoryName == value
      ensures currentWord == old(currentWord) && words == old(words) && isLoading == old(isLoading)
    {
      categoryName := value;
    }

    /** The `onChange` of the word box. */
    method SetCurrentWord(value: string)
      modifies this
      ensures currentWord == value
      ensures categoryName == old(categoryName) && words == old(words) && isLoading == old(isLoading)
    {
      currentWord := value;
    }

    /** `addWord` (the plus button and the Enter key). The input box is
        cleared only when the word was added. */
    method AddWord()
      requires Valid()
      modifies this
      ensures Valid()
      ensures words == WithWord(old(words), old(currentWord))
      ensures currentWord == if Accepts(old(words), old(currentWord)) then [] else old(currentWord)
      ensures categoryName == old(categoryName) && isLoading == old(isLoading)
    {
      WithWordWellFormed(words, currentWord);
      var w := Trim(currentWord);
      if w != [] && w !in words {
        words := words + [w];
        currentWord := [];
      }
    }

    /** `removeWord` (the cross on a badge). */
    method RemoveWord(wordToRemove: string)
      requires Valid()
      modifies this
      ensures Valid()
      ensures words == Without(old(words), wordToRemove)
      ensures categoryName == old(categoryName) && currentWord == old(currentWord) && isLoading == old(isLoading)
    {
      WithoutWellFormed(words, wordToRemove);
      words := Without(words, wordToRemove);
    }

    /** `handleSubmit` up to the `fetch`: the guard, then the loading flag.
        The button is disabled while a request is in flight. */
    method BeginSubmit() returns (request: Option<Request>)
      requires !isLoading
      modifies this
      ensures request == SubmitRequest(categoryName, words)
      ensures isLoading == request.Some?
      ensures categoryName == old(categoryName) && currentWord == old(currentWord) && words == old(words)
    {
      var name := Trim(categoryName);
      if name == [] || |words| == 0 {
        return None;
      }
      isLoading := true;
      request := Some(Request(name, words));
    }

    /** The rest of `handleSubmit`: `onSuccess` is called only for an `ok`
        response, and the loading flag is cleared however the request
        ended. */
    method FinishSubmit(result: FetchResult) returns (callsOnSuccess: bool)
      requires isLoading
      modifies this
      ensures callsOnSuccess <==> result == Responded(true)
      ensures !isLoading
      ensures categoryName == old(categoryName) && currentWord == old(currentWord) && words == old(words)
    {
      callsOnSuccess := result.Responded? && result.ok;
      isLoading := false;
    }
  }
}
