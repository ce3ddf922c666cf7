/** The state of the `App` component and the handlers that change it: the
    search box, the filter checkboxes, the pagination buttons, adding to and
    removing from the team, and what a finished fetch does to the user list. */
module Directory {
  import opened Team
  import opened Query

  /** How the listing request settled: with the response's `results`, or with an error. */
  datatype FetchOutcome = Fetched(results: seq<User>) | Failed

  class App {
    var searchTerm: string
    var filters: Filters
    var users: seq<User>
    var selectedUsers: seq<User>
    var currentPage: int

    /** What every handler keeps: the page never drops below 1, and the team
        holds at most one member per domain and one per availability value. */
    ghost predicate Valid()
      reads this
    {
      currentPage >= 1 && TeamInvariant(selectedUsers)
    }

    /** The initial state: empty search, no filters, no users, empty team, page 1. */
    constructor ()
      ensures Valid()
      ensures searchTerm == "" && filters == NoFilters && currentPage == 1
      ensures users == [] && selectedUsers == []
    {
      searchTerm := "";
      filters := NoFilters;
      users := [];
      selectedUsers := [];
      currentPage := 1;
    }

    /** The request the current state describes. */
    function CurrentRequest(): Request
      reads this
    {
      Request(currentPage, searchTerm, filters)
    }

    /** `fetchUsers`: builds the parameters from the state at the call, then
        replaces the user list with the results on success and keeps it on failure. */
    method FetchUsers(outcome: FetchOutcome) returns (params: seq<Param>)
      requires Valid()
      modifies this`users
      ensures Valid()
      ensures params == RequestParams(old(CurrentRequest()))
      ensures users == if outcome.Fetched? then outcome.results else old(users)
    {
      params := RequestParams(CurrentRequest());
      match outcome {
        case Fetched(results) => users := results;
        case Failed =>
      }
    }

    /** `handleSearch`: takes the new text and goes back to page 1. */
    method HandleSearch(text: string)
      requires Valid()
      modifies this`searchTerm, this`currentPage
      ensures Valid()
      ensures searchTerm == text && currentPage == 1
    {
      searchTerm := text;
      currentPage := 1;
    }

    /** `handleFilterChange`: toggles `value` in dimension `d` and goes back to page 1. */
    method HandleFilterChange(d: Dimension, value: string, checked: bool)
      requires Valid()
      modifies this`filters, this`currentPage
      ensures Valid()
      ensures filters == ToggleFilter(old(filters), d, value, checked)
      ensures currentPage == 1
    {
      filters := ToggleFilter(filters, d, value, checked);
      currentPage := 1;
    }

    /** `addToTeam`: admits the candidate unless it clashes on domain or availability. */
    method AddToTeam(user: User)
      requires Valid()
      modifies this`selectedUsers
      ensures Valid()
      ensures selectedUsers == Admit(old(selectedUsers), user)
    {
      selectedUsers := Admit(selectedUsers, user);
    }

    /** `removeUserFromTeam`: drops every member with the user's id. */
    method RemoveUserFromTeam(user: User)
      requires Valid()
      modifies this`selectedUsers
      ensures Valid()
      ensures selectedUsers == Dismiss(old(selectedUsers), user.id)
    {
      selectedUsers := Dismiss(selectedUsers, user.id);
    }

    /** The Next button: one page forward, with no upper bound. */
    method HandleNextPage()
      requires Valid()
      modifies this`currentPage
      ensures Valid()
      ensures currentPage == old(currentPage) + 1
    {
      currentPage := currentPage + 1;
    }

    /** A click on the Prev button: one page back, except on page 1, where the
        button is disabled and the click does nothing. */
    method HandlePrevPage()
      requires Valid()
      modifies this`currentPage
      ensures Valid()
      ensures currentPage == if old(currentPage) == 1 then 1 else old(currentPage) - 1
    {
      if currentPage != 1 {
        currentPage := currentPage - 1;
      }
    }
  }
}
