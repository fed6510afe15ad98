/** The in-conversation message search box (src/components/messages/SearchBar.js). */
module SearchBar {
  import opened Strings

  /** The parent callback a handler fires, if any. */
  datatype SearchCall = NoCall | OnSearch(query: string) | OnClear

  /** The results area shown beside the box. */
  datatype Counter = NoCounter | NoResults | Position(index: int, total: int, previousDisabled: bool, nextDisabled: bool)

  /** The counter is shown while there is search text: "i+1 of n" with navigation when there are results. */
  function ResultsCounter(searchText: string, resultsCount: int, currentIndex: int): (c: Counter)
    ensures c.NoCounter? <==> searchText == ""
    ensures c.NoResults? <==> searchText != "" && resultsCount <= 0
    ensures c.Position? ==> c.index == currentIndex + 1 && c.total == resultsCount
    ensures c.Position? ==> (c.previousDisabled <==> currentIndex == 0) && (c.nextDisabled <==> currentIndex == resultsCount - 1)
  {
    if searchText == "" then NoCounter
    else if resultsCount <= 0 then NoResults
    else Position(currentIndex + 1, resultsCount, currentIndex == 0, currentIndex == resultsCount - 1)
  }

  class SearchBar {
    var searchText: string
    var isExpanded: bool

    constructor ()
      ensures searchText == "" && !isExpanded
    {
      searchText := "";
      isExpanded := false;
    }

    method Expand()
      modifies this`isExpanded
      ensures isExpanded
    {
      isExpanded := true;
    }

    /** `handleSubmit`: searches for the trimmed text, if any. */
    method HandleSubmit() returns (call: SearchCall)
      ensures call == if IsBlank(searchText) then NoCall else OnSearch(Trim(searchText))
    {
      var t := Trim(searchText);
      call := if t != "" then OnSearch(t) else NoCall;
    }

    /** `handleChange`: stores the raw value, then searches for it trimmed or clears when it is blank. */
    method HandleChange(value: string, hasOnClear: bool) returns (call: SearchCall)
      modifies this`searchText
      ensures searchText == value
      ensures !IsBlank(value) ==> call == OnSearch(Trim(value))
      ensures IsBlank(value) ==> call == if hasOnClear then OnClear else NoCall
    {
      searchText := value;
      var t := Trim(value);
      if t != "" {
        call := OnSearch(t);
      } else if hasOnClear {
        call := OnClear;
      } else {
        call := NoCall;
      }
    }

    /** `handleClear`: empties and collapses the box, then clears the results. */
    method HandleClear(hasOnClear: bool) returns (call: SearchCall)
      modifies this`searchText, this`isExpanded
      ensures searchText == "" && !isExpanded
      ensures call == if hasOnClear then OnClear else NoCall
    {
      searchText := "";
      isExpanded := false;
      call := if hasOnClear then OnClear else NoCall;
    }
  }

  // ----- Properties -----

  /** Every query the search callback receives is trimmed and non-empty. */
  lemma SearchQueriesAreTrimmed(value: string)
    requires !IsBlank(value)
    ensures var q := Trim(value); q != "" && Trim(q) == q && !IsSpace(q[0]) && !IsSpace(q[|q| - 1])
  {
    TrimIdempotent(value);
  }

  /** Whitespace-only input clears instead of searching. */
  lemma WhitespaceClears(value: string)
    requires AllSpace(value)
    ensures IsBlank(value)
  {
    BlankIffAllSpace(value);
  }

  /** With results, the previous button is disabled exactly at the first and next exactly at the last result. */
  lemma NavigationBounds(searchText: string, n: int, i: int)
    requires searchText != "" && n > 0 && 0 <= i < n
    ensures var c := ResultsCounter(searchText, n, i);
      c.Position? && 1 <= c.index <= n && (c.previousDisabled <==> i == 0) && (c.nextDisabled <==> i == n - 1)
  {
  }
}
