/** src/screens/SearchScreen.js: the user search box, its results list and the
    most-recently-used search history. */
module SearchScreen {
  import opened Base
  import opened Seqs
  import opened JsText
  import UserSearch

  const HistoryLimit: nat := 10

  /** Putting `t` in front of a list it does not occur in gives it exactly one copy. */
  lemma CountOfFront(t: string, rest: seq<string>)
    requires t !in rest
    ensures Count([t] + rest, t) == 1
  {
    assert ([t] + rest)[1..] == rest;
  }

  /** `saveToHistory`: the text moves to the front, its older copies are dropped,
      and the list is cut to ten entries; an empty text changes nothing. */
  function SaveToHistory(history: seq<string>, text: string): (r: seq<string>)
    ensures text == "" ==> r == history
    ensures text != "" ==>
      && |r| == Min(1 + |Without(history, text)|, HistoryLimit)
      && r[0] == text
      && Count(r, text) == 1
      && r[1..] == Without(history, text)[..|r| - 1]
  {
    if text == "" then history
    else
      var others := Without(history, text);
      var kept := others[..Min(|others|, HistoryLimit - 1)];
      assert text !in kept;
      CountOfFront(text, kept);
      assert ([text] + kept)[1..] == kept;
      [text] + kept
  }

  /** The entries after the front keep their relative order from the old list. */
  lemma SaveKeepsOrder(history: seq<string>, text: string)
    requires text != ""
    ensures Subsequence(SaveToHistory(history, text)[1..], history)
  {
    var r := SaveToHistory(history, text);
    WithoutIsSubsequence(history, text);
    PrefixOfSubsequence(Without(history, text), history, |r| - 1);
  }

  /** Saving the same text twice gives the list that saving it once gave. */
  lemma SaveIdempotent(history: seq<string>, text: string)
    ensures SaveToHistory(SaveToHistory(history, text), text) == SaveToHistory(history, text)
  {
    if text != "" {
      var r := SaveToHistory(history, text);
      var kept := r[1..];
      assert r == [text] + kept;
      assert text !in kept;
      WithoutAbsent(kept, text);
      assert Without(r, text) == kept;
    }
  }

  /** `removeFromHistory`: every copy of the text goes; the rest keep their order
      and their multiplicities. */
  function RemoveFromHistory(history: seq<string>, text: string): (r: seq<string>)
    ensures text !in r
    ensures Subsequence(r, history)
    ensures forall y :: y != text ==> Count(r, y) == Count(history, y)
  {
    WithoutIsSubsequence(history, text);
    Without(history, text)
  }

  /** Removing what was just saved leaves the old list without that text, cut to
      the nine entries that survived the save. */
  lemma RemoveUndoesSave(history: seq<string>, text: string)
    requires text != ""
    ensures RemoveFromHistory(SaveToHistory(history, text), text)
            == Without(history, text)[..|SaveToHistory(history, text)| - 1]
  {
    var r := SaveToHistory(history, text);
    var kept := r[1..];
    assert r == [text] + kept;
    WithoutAbsent(kept, text);
  }

  /** The results list after `handleSearch(text)` and whether a request was sent. */
  datatype SearchStep = SearchStep(results: seq<UserSearch.SearchHit>, requested: bool)

  /** `handleSearch`: an empty box clears the results and sends nothing; otherwise
      a success reply replaces the results and anything else keeps them. */
  function HandleSearch(text: string, results: seq<UserSearch.SearchHit>,
                        response: Response<seq<UserSearch.SearchHit>>): (s: SearchStep)
    ensures s.requested <==> |text| >= 1
    ensures !s.requested ==> s.results == []
    ensures s.requested && response.Answer? && response.reply.Success? ==> s.results == response.reply.data
    ensures s.requested && !(response.Answer? && response.reply.Success?) ==> s.results == results
  {
    if |text| < 1 then SearchStep([], false)
    else if response.Answer? && response.reply.Success? then SearchStep(response.reply.data, true)
    else SearchStep(results, true)
  }

  /** `handleUserClick`: saves the hit's name (or the typed query when the name is
      empty) and opens that user's public profile. */
  function UserClick(history: seq<string>, hit: UserSearch.SearchHit, query: string): (r: (seq<string>, int))
    ensures r.0 == SaveToHistory(history, OrElse(Some(hit.name), query))
    ensures r.1 == hit.id
    ensures hit.name != "" ==> r.0[0] == hit.name
    ensures hit.name == "" && query != "" ==> r.0[0] == query
  {
    (SaveToHistory(history, OrElse(Some(hit.name), query)), hit.id)
  }
}
