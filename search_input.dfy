/** The autocomplete dropdown of the search box: the typed text, the suggestion
    list, whether the dropdown is open, the highlighted row, the value the
    debounce timer will fetch, the suggestion requests still in flight and the
    queries handed to the router. */
module SearchInput {
  import opened Wrappers
  import Text

  /** A hit of the search endpoint as the dropdown receives it; `formatted`
      stands for the highlighting payload the dropdown drops. */
  datatype Hit = Hit(id: string, name: string, url: string, kind: string,
                     description: Option<string>, formatted: map<string, string>)

  datatype Suggestion = Suggestion(id: string, name: string, url: string, kind: string,
                                   description: Option<string>)

  /** How a suggestion request ended: a 2xx answer (whose `hits` may be missing),
      an answer that is not ok, or a thrown error. */
  datatype FetchOutcome = Answered(hits: Option<seq<Hit>>) | NotOk | Threw

  datatype Key = ArrowDown | ArrowUp | Enter | Escape | OtherKey

  /** What a key press did besides changing the dropdown: nothing, a navigation
      to the results page with the given query, or a TypeError thrown by the
      handler. */
  datatype KeyEffect = NoEffect | Navigated(query: string) | Crashed

  /** Queries shorter than this, in UTF-16 code units, never reach the server. */
  const MinQueryLength := 2

  /** Each hit reduced to the five fields a suggestion row shows. */
  function Project(hits: seq<Hit>): (r: seq<Suggestion>)
    ensures |r| == |hits|
    ensures forall i :: 0 <= i < |hits| ==>
      r[i].id == hits[i].id && r[i].name == hits[i].name && r[i].url == hits[i].url &&
      r[i].kind == hits[i].kind && r[i].description == hits[i].description
  {
    if hits == [] then []
    else [Suggestion(hits[0].id, hits[0].name, hits[0].url, hits[0].kind, hits[0].description)] + Project(hits[1..])
  }

  /** The guard of the suggestion fetch: some non-blank text and at least two
      UTF-16 code units, as JavaScript counts `length`. */
  predicate ShouldFetch(query: string) {
    !Text.IsBlank(query) && Text.Utf16Length(query) >= MinQueryLength
  }

  /** A fetched query has a non-empty trimmed text and at least two code units. */
  lemma FetchedQueryIsMeaningful(query: string)
    requires ShouldFetch(query)
    ensures Text.Trim(query) != "" && Text.Utf16Length(query) >= 2
    ensures exists k :: 0 <= k < |query| && !Text.IsSpace(query[k])
  {
    Text.BlankIffAllSpace(query);
  }

  /** ArrowDown moves the highlight one row down, but never past the last suggestion. */
  function ArrowDownIndex(prev: int, count: nat): (r: int)
    ensures prev <= r <= prev + 1
    ensures r == prev + 1 <==> prev < count - 1
    ensures prev <= count - 1 ==> r <= count - 1
  {
    if prev < count - 1 then prev + 1 else prev
  }

  /** ArrowUp moves the highlight one row up; from the first row or from no row it
      clears the highlight. */
  function ArrowUpIndex(prev: int): (r: int)
    ensures r >= -1
    ensures r < prev || r == -1
    ensures prev > 0 ==> r == prev - 1
  {
    if prev > 0 then prev - 1 else -1
  }

  class SearchBox {
    var searchQuery: string
    var suggestions: seq<Suggestion>
    var showSuggestions: bool
    var selectedIndex: int
    var loading: bool
    /** The value the debounce timer will fetch, if a timer is set. */
    var pending: Option<string>
    /** Suggestion requests sent whose answers have not yet arrived. */
    var requests: seq<string>
    /** Queries handed to the router, oldest first. */
    var navigations: seq<string>

    /** The highlight is -1 or a row of the list (the "Search for" row being
        number |suggestions|), and an open dropdown always has suggestions. */
    ghost predicate Valid()
      reads this
    {
      && selectedIndex >= -1
      && (suggestions != [] ==> selectedIndex <= |suggestions|)
      && (showSuggestions ==> suggestions != [])
    }

    constructor (initialQuery: string)
      ensures Valid()
      ensures searchQuery == initialQuery && suggestions == [] && !showSuggestions
      ensures selectedIndex == -1 && !loading && pending == None && requests == [] && navigations == []
    {
      searchQuery := initialQuery;
      suggestions := [];
      showSuggestions := false;
      selectedIndex := -1;
      loading := false;
      pending := None;
      requests := [];
      navigations := [];
    }

    /** A new `initialQuery` property replaces the typed text and nothing else. */
    method InitialQueryChanged(initialQuery: string)
      requires Valid()
      modifies this`searchQuery
      ensures Valid() && searchQuery == initialQuery
    {
      searchQuery := initialQuery;
    }

    /** A keystroke: the text changes at once and the fetch is rescheduled, so
        whatever value was pending before is dropped. */
    method InputChanged(value: string)
      requires Valid()
      modifies this`searchQuery, this`pending
      ensures Valid()
      ensures searchQuery == value && pending == Some(value)
    {
      searchQuery := value;
      pending := Some(value);
    }

    /** The debounce timer fires and fetches the value it was set for. */
    method DebounceElapsed() returns (issued: bool)
      requires Valid()
      modifies this
      ensures Valid()
      ensures pending == None && searchQuery == old(searchQuery) && navigations == old(navigations)
      ensures issued <==> old(pending).Some? && ShouldFetch(old(pending).value)
      ensures issued ==> requests == old(requests) + [old(pending).value] && loading
                         && suggestions == old(suggestions) && showSuggestions == old(showSuggestions)
      ensures !issued ==> requests == old(requests)
      ensures old(pending).Some? && !issued ==> suggestions == [] && !showSuggestions
      ensures old(pending).None? ==> suggestions == old(suggestions) && showSuggestions == old(showSuggestions)
      ensures !issued ==> loading == old(loading)
      ensures selectedIndex == old(selectedIndex)
    {
      issued := false;
      if pending.Some? {
        var value := pending.value;
        pending := None;
        issued := FetchSuggestions(value);
      }
    }

    /** The synchronous part of the suggestion fetch: the length guard, then the
        request. */
    method FetchSuggestions(query: string) returns (issued: bool)
      requires Valid()
      modifies this`suggestions, this`showSuggestions, this`loading, this`requests
      ensures Valid()
      ensures issued == ShouldFetch(query)
      ensures !issued ==> suggestions == [] && !showSuggestions && requests == old(requests)
                          && loading == old(loading)
      ensures issued ==> requests == old(requests) + [query] && loading
                         && suggestions == old(suggestions) && showSuggestions == old(showSuggestions)
    {
      if Text.IsBlank(query) || Text.Utf16Length(query) < MinQueryLength {
        suggestions := [];
        showSuggestions := false;
        return false;
      }
      loading := true;
      requests := requests + [query];
      return true;
    }

    /** The answer to in-flight request `k` arrives. Nothing ties it to the
        request it answers: a late answer overwrites a newer one. */
    method AnswerArrived(k: nat, outcome: FetchOutcome)
      requires Valid() && k < |requests|
      modifies this`suggestions, this`showSuggestions, this`selectedIndex, this`loading, this`requests
      ensures Valid()
      ensures requests == old(requests[..k] + requests[k + 1..]) && !loading
      ensures outcome.Answered? ==>
        && suggestions == Project(outcome.hits.GetOr([]))
        && showSuggestions == (suggestions != [])
        && selectedIndex == -1
      ensures outcome.NotOk? ==>
        suggestions == old(suggestions) && showSuggestions == old(showSuggestions) && selectedIndex == old(selectedIndex)
      ensures outcome.Threw? ==>
        suggestions == [] && !showSuggestions && selectedIndex == old(selectedIndex)
    {
      requests := requests[..k] + requests[k + 1..];
      match outcome {
        case Answered(hits) =>
          suggestions := Project(hits.GetOr([]));
          showSuggestions := |suggestions| > 0;
          selectedIndex := -1;
        case NotOk =>
        case Threw =>
          suggestions := [];
          showSuggestions := false;
      }
      loading := false;
    }

    /** `handleSearch`: navigate with the untrimmed text when its trim is non-empty. */
    method Search()
      requires Valid()
      modifies this`showSuggestions, this`navigations
      ensures Valid()
      ensures Text.IsBlank(searchQuery) ==> showSuggestions == old(showSuggestions) && navigations == old(navigations)
      ensures !Text.IsBlank(searchQuery) ==> !showSuggestions && navigations == old(navigations) + [searchQuery]
    {
      if !Text.IsBlank(searchQuery) {
        showSuggestions := false;
        navigations := navigations + [searchQuery];
      }
    }

    /** `selectSuggestion`: take the text, close the dropdown and navigate. */
    method Select(text: string)
      requires Valid()
      modifies this`searchQuery, this`showSuggestions, this`selectedIndex, this`navigations
      ensures Valid()
      ensures searchQuery == text && !showSuggestions && selectedIndex == -1
      ensures navigations == old(navigations) + [text]
    {
      searchQuery := text;
      showSuggestions := false;
      selectedIndex := -1;
      navigations := navigations + [text];
    }

    /** `handleKeyDown` as written. With the "Search for" row highlighted
        (index == |suggestions|), Enter reads past the end of the list and the
        handler throws. */
    method KeyDown(key: Key) returns (effect: KeyEffect)
      requires Valid()
      modifies this`searchQuery, this`showSuggestions, this`selectedIndex, this`navigations
      ensures Valid()
      ensures !old(showSuggestions) ==>
        && selectedIndex == old(selectedIndex) && searchQuery == old(searchQuery)
        && (if key == Enter && !Text.IsBlank(old(searchQuery))
            then effect == Navigated(old(searchQuery)) && navigations == old(navigations) + [old(searchQuery)]
            else effect == NoEffect && navigations == old(navigations))
        && !showSuggestions
      ensures old(showSuggestions) ==> match key
        case ArrowDown =>
          effect == NoEffect && selectedIndex == ArrowDownIndex(old(selectedIndex), |suggestions|)
          && showSuggestions && searchQuery == old(searchQuery) && navigations == old(navigations)
        case ArrowUp =>
          effect == NoEffect && selectedIndex == ArrowUpIndex(old(selectedIndex))
          && showSuggestions && searchQuery == old(searchQuery) && navigations == old(navigations)
        case Enter =>
          if 0 <= old(selectedIndex) < |suggestions| then
            var name := suggestions[old(selectedIndex)].name;
            effect == Navigated(name) && searchQuery == name && !showSuggestions && selectedIndex == -1
            && navigations == old(navigations) + [name]
          else if old(selectedIndex) >= 0 then
            effect == Crashed && showSuggestions && selectedIndex == old(selectedIndex)
            && searchQuery == old(searchQuery) && navigations == old(navigations)
          else if !Text.IsBlank(old(searchQuery)) then
            effect == Navigated(old(searchQuery)) && !showSuggestions && selectedIndex == -1
            && searchQuery == old(searchQuery) && navigations == old(navigations) + [old(searchQuery)]
          else
            effect == NoEffect && showSuggestions && selectedIndex == -1
            && searchQuery == old(searchQuery) && navigations == old(navigations)
        case Escape =>
          effect == NoEffect && !showSuggestions && selectedIndex == -1
          && searchQuery == old(searchQuery) && navigations == old(navigations)
        case OtherKey =>
          effect == NoEffect && showSuggestions && selectedIndex == old(selectedIndex)
          && searchQuery == old(searchQuery) && navigations == old(navigations)
    {
      effect := NoEffect;
      if !showSuggestions {
        if key == Enter {
          if !Text.IsBlank(searchQuery) {
            effect := Navigated(searchQuery);
          }
          Search();
        }
        return;
      }
      match key {
        case ArrowDown =>
          selectedIndex := ArrowDownIndex(selectedIndex, |suggestions|);
        case ArrowUp =>
          selectedIndex := ArrowUpIndex(selectedIndex);
        case Enter =>
          if selectedIndex >= 0 {
            if selectedIndex >= |suggestions| {
              // suggestions[selectedIndex] is undefined and `.name` throws
              return Crashed;
            }
            var name := suggestions[selectedIndex].name;
            Select(name);
            effect := Navigated(name);
          } else {
            if !Text.IsBlank(searchQuery) {
              effect := Navigated(searchQuery);
            }
            Search();
          }
        case Escape =>
          showSuggestions := false;
          selectedIndex := -1;
        case OtherKey =>
      }
    }

    /** `handleKeyDown` with Enter on the highlighted "Search for" row doing what
        a click on that row does: submit the typed text. Every other key and
        state is handled exactly as by `KeyDown`. */
    method KeyDownCorrected(key: Key) returns (effect: KeyEffect)
      requires Valid()
      modifies this`searchQuery, this`showSuggestions, this`selectedIndex, this`navigations
      ensures Valid()
      ensures effect != Crashed
      ensures !old(showSuggestions) ==>
        && selectedIndex == old(selectedIndex) && searchQuery == old(searchQuery)
        && (if key == Enter && !Text.IsBlank(old(searchQuery))
            then effect == Navigated(old(searchQuery)) && navigations == old(navigations) + [old(searchQuery)]
            else effect == NoEffect && navigations == old(navigations))
        && !showSuggestions
      ensures old(showSuggestions) ==> match key
        case ArrowDown =>
          effect == NoEffect && selectedIndex == ArrowDownIndex(old(selectedIndex), |suggestions|)
          && showSuggestions && searchQuery == old(searchQuery) && navigations == old(navigations)
        case ArrowUp =>
          effect == NoEffect && selectedIndex == ArrowUpIndex(old(selectedIndex))
          && showSuggestions && searchQuery == old(searchQuery) && navigations == old(navigations)
        case Enter =>
          if 0 <= old(selectedIndex) < |suggestions| then
            var name := suggestions[old(selectedIndex)].name;
            effect == Navigated(name) && searchQuery == name && !showSuggestions && selectedIndex == -1
            && navigations == old(navigations) + [name]
          else if old(selectedIndex) == |suggestions| then
            effect == Navigated(old(searchQuery)) && searchQuery == old(searchQuery) && !showSuggestions
            && selectedIndex == -1 && navigations == old(navigations) + [old(searchQuery)]
          else if !Text.IsBlank(old(searchQuery)) then
            effect == Navigated(old(searchQuery)) && !showSuggestions && selectedIndex == -1
            && searchQuery == old(searchQuery) && navigations == old(navigations) + [old(searchQuery)]
          else
            effect == NoEffect && showSuggestions && selectedIndex == -1
            && searchQuery == old(searchQuery) && navigations == old(navigations)
        case Escape =>
          effect == NoEffect && !showSuggestions && selectedIndex == -1
          && searchQuery == old(searchQuery) && navigations == old(navigations)
        case OtherKey =>
          effect == NoEffect && showSuggestions && selectedIndex == old(selectedIndex)
          && searchQuery == old(searchQuery) && navigations == old(navigations)
    {
      if showSuggestions && key == Enter && selectedIndex == |suggestions| {
        var text := searchQuery;
        Select(text);
        return Navigated(text);
      }
      effect := KeyDown(key);
    }

    /** Focusing the input reopens a hidden list when there is one and the text
        has at least two code units; the highlight is kept. */
    method Focus()
      requires Valid()
      modifies this`showSuggestions
      ensures Valid()
      ensures showSuggestions == (old(showSuggestions) || (suggestions != [] && Text.Utf16Length(searchQuery) >= MinQueryLength))
    {
      if |suggestions| > 0 && Text.Utf16Length(searchQuery) >= MinQueryLength {
        showSuggestions := true;
      }
    }

    /** The mouse enters suggestion row `i` (rows exist only while the list is
        open and not loading). */
    method HoverSuggestion(i: nat)
      requires Valid() && showSuggestions && !loading && i < |suggestions|
      modifies this`selectedIndex
      ensures Valid() && selectedIndex == i
    {
      selectedIndex := i;
    }

    /** The mouse enters the trailing "Search for" row. */
    method HoverSearchRow()
      requires Valid() && showSuggestions && !loading
      modifies this`selectedIndex
      ensures Valid() && selectedIndex == |suggestions|
    {
      selectedIndex := |suggestions|;
    }

    /** A click on suggestion row `i` submits that suggestion's name. */
    method ClickSuggestion(i: nat)
      requires Valid() && showSuggestions && !loading && i < |suggestions|
      modifies this`searchQuery, this`showSuggestions, this`selectedIndex, this`navigations
      ensures Valid()
      ensures searchQuery == old(suggestions[i].name) && !showSuggestions && selectedIndex == -1
      ensures navigations == old(navigations) + [old(suggestions[i].name)]
    {
      Select(suggestions[i].name);
    }

    /** A click on the "Search for" row submits the typed text, blank or not. */
    method ClickSearchRow()
      requires Valid() && showSuggestions && !loading
      modifies this`searchQuery, this`showSuggestions, this`selectedIndex, this`navigations
      ensures Valid()
      ensures searchQuery == old(searchQuery) && !showSuggestions && selectedIndex == -1
      ensures navigations == old(navigations) + [old(searchQuery)]
    {
      Select(searchQuery);
    }

    /** A mouse press outside both the input and the open list closes the list. */
    method MouseDown(insideList: bool, insideInput: bool)
      requires Valid()
      modifies this`showSuggestions, this`selectedIndex
      ensures Valid()
      ensures if old(showSuggestions) && !insideList && !insideInput
              then !showSuggestions && selectedIndex == -1
              else showSuggestions == old(showSuggestions) && selectedIndex == old(selectedIndex)
    {
      if showSuggestions && !insideList && !insideInput {
        showSuggestions := false;
        selectedIndex := -1;
      }
    }
  }

  lemma SampleQueriesFetch()
    ensures ShouldFetch("ab") && ShouldFetch("abc")
  {
    Text.BlankIffAllSpace("ab");
    Text.BlankIffAllSpace("abc");
    assert !Text.IsSpace("ab"[0]) && !Text.IsSpace("abc"[0]);
    assert !Text.Astral("ab"[0]) && !Text.Astral("ab"[1]);
    assert !Text.Astral("abc"[0]) && !Text.Astral("abc"[1]) && !Text.Astral("abc"[2]);
  }

  /** A single emoji is two code units long and is fetched. */
  lemma EmojiIsFetched()
    ensures ShouldFetch("\U{1F600}")
  {
    Text.AstralLength('\U{1F600}');
    Text.BlankIffAllSpace("\U{1F600}");
    assert !Text.IsSpace("\U{1F600}"[0]);
  }

  /** Typing "ab", waiting for the list of one suggestion and hovering the
      "Search for" row below it. */
  method HoveredSearchRow(hit: Hit) returns (box: SearchBox)
    ensures fresh(box) && box.Valid()
    ensures box.searchQuery == "ab" && box.showSuggestions && |box.suggestions| == 1
    ensures box.selectedIndex == |box.suggestions| && box.navigations == []
  {
    box := new SearchBox("");
    box.InputChanged("ab");
    var issued := box.DebounceElapsed();
    SampleQueriesFetch();
    assert box.requests == ["ab"] && box.searchQuery == "ab";
    box.AnswerArrived(0, Answered(Some([hit])));
    assert |box.suggestions| == 1 && box.showSuggestions && box.navigations == [];
    box.HoverSearchRow();
  }

  /** Pressing Enter on the hovered "Search for" row makes the handler throw. */
  method EnterOnSearchRowThrows(hit: Hit) returns (effect: KeyEffect)
    ensures effect == Crashed
  {
    var box := HoveredSearchRow(hit);
    effect := box.KeyDown(Enter);
  }

  /** The same steps with the corrected handler submit the typed text. */
  method EnterOnSearchRowSubmits(hit: Hit) returns (effect: KeyEffect, submitted: seq<string>)
    ensures effect == Navigated("ab") && submitted == ["ab"]
  {
    var box := HoveredSearchRow(hit);
    effect := box.KeyDownCorrected(Enter);
    submitted := box.navigations;
  }

  /** Two requests in flight whose answers arrive in reverse order: the list
      shows the answer to the older text "ab" while the box holds "abc". */
  method LateAnswerOverwrites(older: seq<Hit>, newer: seq<Hit>) returns (shown: seq<Suggestion>, typed: string)
    ensures shown == Project(older) && typed == "abc"
  {
    SampleQueriesFetch();
    var box := new SearchBox("");
    box.InputChanged("ab");
    var first := box.DebounceElapsed();
    box.InputChanged("abc");
    var second := box.DebounceElapsed();
    assert box.requests == ["ab", "abc"];
    box.AnswerArrived(1, Answered(Some(newer)));
    box.AnswerArrived(0, Answered(Some(older)));
    shown, typed := box.suggestions, box.searchQuery;
  }
}
