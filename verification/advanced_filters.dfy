/**
 * The home feed's filter panel: the filters object it edits, which of its
 * values count as active, the badge, the select mappings and the panel's
 * open state.
 */
module AdvancedFilters {
  import opened Wrappers
  import opened Js

  /** `value !== "" && value !== null && value !== undefined`: `0` and `false` are active. */
  predicate Active(v: Json) {
    v != JStr("") && v != JNull && v != JUndef
  }

  /** The keys whose values are active. */
  function ActiveKeys(filters: Record): (keys: set<string>)
    ensures keys <= filters.Keys
    ensures forall k :: k in keys <==> k in filters && Active(filters[k])
  {
    set k | k in filters && Active(filters[k])
  }

  /** The badge number: `Object.values(filters).filter(active).length`. */
  function ActiveCount(filters: Record): (n: nat)
    ensures n > 0 <==> HasActiveFilters(filters)
    ensures n > 0 <==> ActiveKeys(filters) != {}
  {
    |ActiveKeys(filters)|
  }

  /** `hasActiveFilters`: some value is active. */
  function HasActiveFilters(filters: Record): (has: bool)
    ensures has <==> ActiveKeys(filters) != {}
  {
    exists k :: k in filters && Active(filters[k])
  }

  /** The badge is shown, and counts at least one, exactly when some filter is active. */
  lemma BadgeIffActive(filters: Record)
    ensures HasActiveFilters(filters) <==> ActiveCount(filters) > 0
  {
    if HasActiveFilters(filters) {
      var k :| k in filters && Active(filters[k]);
      assert k in ActiveKeys(filters);
    }
  }

  /** `handleFilterChange(key, value)`: a copy of the filters with only `key` set. */
  function ChangeFilter(filters: Record, key: string, value: Json): (changed: Record)
    ensures changed.Keys == filters.Keys + {key}
    ensures changed[key] == value
    ensures forall k :: k in filters && k != key ==> changed[k] == filters[k]
  {
    Spread(filters, map[key := value])
  }

  /** One change moves the count by the change in that one key's activity. */
  lemma ChangeMovesCountByOne(filters: Record, key: string, value: Json)
    ensures ActiveCount(ChangeFilter(filters, key, value))
         == ActiveCount(filters)
            - (if key in filters && Active(filters[key]) then 1 else 0)
            + (if Active(value) then 1 else 0)
  {
    var changed := ChangeFilter(filters, key, value);
    var before := ActiveKeys(filters);
    var after := ActiveKeys(changed);
    var others := before - {key};
    forall k
      ensures k in after <==> k in others || (Active(value) && k == key)
    {
      if k != key {
        assert k in changed <==> k in filters;
      }
    }
    CountWithKey(others, key, Active(value), after);
    CountWithKey(others, key, key in filters && Active(filters[key]), before);
  }

  /** A set that is `others` plus, when `add` holds, one key not in `others`. */
  lemma CountWithKey(others: set<string>, key: string, add: bool, result: set<string>)
    requires key !in others
    requires forall k :: k in result <==> k in others || (add && k == key)
    ensures |result| == |others| + (if add then 1 else 0)
  {
    if add {
      assert result == others + {key};
    } else {
      assert result == others;
    }
  }

  /** The solved select's `onChange`: "" gives `null`, "true" gives `true`, any other option `false`. */
  function SolvedFromOption(option: string): (v: Json)
    ensures option == "" <==> v == JNull
    ensures option == "true" <==> v == JBool(true)
    ensures option != "" && option != "true" ==> v == JBool(false)
  {
    if option == "" then JNull else JBool(option == "true")
  }

  /** The date select's `onChange`: `value || null`. */
  function DateRangeFromOption(option: string): (v: Json)
    ensures option == "" <==> v == JNull
    ensures option != "" ==> v == JStr(option)
  {
    if option == "" then JNull else JStr(option)
  }

  /** The selected option shown for a value of the solved filter, as written: `filters.solved || ""`. */
  function SolvedOptionAsWritten(solved: Json): (option: string)
    ensures solved == JBool(true) ==> option == "true"
    ensures !Truthy(solved) ==> option == ""
    ensures solved.JStr? && solved.s != "" ==> option == solved.s
  {
    Display(Or(solved, JStr("")))
  }

  /** Choosing "unsolved" stores an active `false`, but the select then shows "all". */
  lemma UnsolvedShownAsAll()
    ensures SolvedFromOption("false") == JBool(false) && Active(JBool(false))
    ensures SolvedOptionAsWritten(SolvedFromOption("false")) == ""
    ensures SolvedFromOption(SolvedOptionAsWritten(SolvedFromOption("false"))) != SolvedFromOption("false")
  {
  }

  /** The selected option the select evidently means: `true`/`false` by name, anything else "all". */
  function SolvedOption(solved: Json): (option: string)
    ensures solved == JBool(true) ==> option == "true"
    ensures solved == JBool(false) ==> option == "false"
    ensures !solved.JBool? ==> option == ""
  {
    match solved
    case JBool(b) => if b then "true" else "false"
    case _ => ""
  }

  /** The corrected display and the `onChange` mapping are inverse on the three options and the three values. */
  lemma SolvedOptionRoundTrip(option: string, solved: Json)
    ensures option in {"", "true", "false"} ==> SolvedOption(SolvedFromOption(option)) == option
    ensures solved in {JNull, JBool(true), JBool(false)} ==> SolvedFromOption(SolvedOption(solved)) == solved
  {
  }

  /** The two displays differ only on `false`. */
  lemma CorrectionOnlyForFalse(solved: Json)
    requires solved in {JNull, JUndef, JBool(true), JBool(false)}
    ensures SolvedOption(solved) != SolvedOptionAsWritten(solved) <==> solved == JBool(false)
  {
  }

  /** The panel's one piece of local state. */
  class FilterPanel {
    var isOpen: bool

    constructor ()
      ensures !isOpen
    {
      isOpen := false;
    }

    /** The filter button. */
    method Toggle()
      modifies this
      ensures isOpen == !old(isOpen)
    {
      isOpen := !isOpen;
    }

    /** The backdrop and the close button. */
    method Close()
      modifies this
      ensures !isOpen
    {
      isOpen := false;
    }

    /** The clear button is there only in the open panel with an active filter. */
    predicate ClearShown(filters: Record)
      reads this
    {
      isOpen && HasActiveFilters(filters)
    }

    /** The clear button: `onClear()` is called (reported by `cleared`) and the panel closes. */
    method ClickClear(filters: Record) returns (cleared: bool)
      requires ClearShown(filters)
      modifies this
      ensures cleared && !isOpen
    {
      cleared := true;
      isOpen := false;
    }
  }
}
