/** The directory query: the three filter lists and their toggling in
    `handleFilterChange`, and the request parameters `fetchUsers` builds from
    the page, the search term and the filters. */
module Query {
  import opened Seqs

  datatype Option<T> = None | Some(value: T)

  /** The three filter dimensions, the `filterType` of `handleFilterChange`. */
  datatype Dimension = Gender | Domain | Availability

  /** The checked values per dimension, each in the order they were checked. */
  datatype Filters = Filters(gender: seq<string>, domain: seq<string>, availability: seq<string>)
  {
    function Get(d: Dimension): seq<string>
    {
      match d
      case Gender => gender
      case Domain => domain
      case Availability => availability
    }

    /** `{ ...filters, [d]: values }`: the filters with one dimension replaced. */
    function With(d: Dimension, values: seq<string>): (r: Filters)
      ensures r.Get(d) == values
      ensures forall e :: e != d ==> r.Get(e) == Get(e)
    {
      match d
      case Gender => this.(gender := values)
      case Domain => this.(domain := values)
      case Availability => this.(availability := values)
    }
  }

  /** No value checked in any dimension. */
  const NoFilters := Filters([], [], [])

  /** The `limit` sent with every request. */
  const PageSize := 20

  /** The list of one dimension after its checkbox for `value` changes to `checked`:
      checking appends `value` at the end even when it is already listed;
      unchecking removes every occurrence of it and keeps the rest in order. */
  function Toggle(values: seq<string>, value: string, checked: bool): (r: seq<string>)
    ensures checked ==> |r| == |values| + 1 && r[..|values|] == values && r[|values|] == value
    ensures !checked ==> value !in r
    ensures !checked ==> forall x :: x != value ==> multiset(r)[x] == multiset(values)[x]
  {
    if checked then values + [value]
    else
      var keep := (f: string) => f != value;
      assert forall x :: x != value ==> multiset(Filter(values, keep))[x] == multiset(values)[x] by {
        forall x | x != value ensures multiset(Filter(values, keep))[x] == multiset(values)[x] {
          FilterCount(values, keep, x);
        }
      }
      Filter(values, keep)
  }

  /** The filters after `handleFilterChange` on dimension `d`: that dimension is
      toggled and the other two are left as they were. */
  function ToggleFilter(filters: Filters, d: Dimension, value: string, checked: bool): (r: Filters)
    ensures r.Get(d) == Toggle(filters.Get(d), value, checked)
    ensures forall e :: e != d ==> r.Get(e) == filters.Get(e)
  {
    filters.With(d, Toggle(filters.Get(d), value, checked))
  }

  /** Clearing keeps the remaining values in their order: clearing a
      concatenation clears each part. */
  lemma ClearConcat(a: seq<string>, b: seq<string>, value: string)
    ensures Toggle(a + b, value, false) == Toggle(a, value, false) + Toggle(b, value, false)
  {
    FilterConcat(a, b, (f: string) => f != value);
  }

  /** Checking a value that is already listed lists it twice: the toggle keeps no set semantics. */
  lemma CheckTwiceDuplicates(values: seq<string>, value: string)
    requires value in values
    ensures multiset(Toggle(values, value, true))[value] >= 2
  {
  }

  /** What a request is built from: the page, the search term and the filters. */
  datatype Request = Request(page: int, searchTerm: string, filters: Filters)

  /** A parameter value before percent-encoding: the page and the limit are numbers, the rest text. */
  datatype ParamValue = Number(n: int) | Text(s: string)

  /** A parameter key; `Name` gives the text sent for it. */
  datatype Key = Page | Limit | SearchTerm | FilterKey(d: Dimension)
  {
    function Name(): string
    {
      match this
      case Page => "page"
      case Limit => "limit"
      case SearchTerm => "searchTerm"
      case FilterKey(Gender) => "gender"
      case FilterKey(Domain) => "domain"
      case FilterKey(Availability) => "availability"
    }
  }

  /** Different keys are sent under different names, so keys may stand for their names. */
  lemma KeyNamesDistinct(k1: Key, k2: Key)
    requires k1 != k2
    ensures k1.Name() != k2.Name()
  {
  }

  datatype Param = Param(key: Key, value: ParamValue)

  /** The keys of the parameters, in order. */
  function Keys(ps: seq<Param>): seq<Key>
  {
    seq(|ps|, i requires 0 <= i < |ps| => ps[i].key)
  }

  /** The value of the first parameter with `key`, as `URLSearchParams.get` reads it. */
  function Lookup(ps: seq<Param>, key: Key): (r: Option<ParamValue>)
    ensures r.None? <==> key !in Keys(ps)
  {
    if ps == [] then None
    else
      assert Keys(ps) == [ps[0].key] + Keys(ps[1..]);
      if ps[0].key == key then Some(ps[0].value) else Lookup(ps[1..], key)
  }

  /** A parameter whose key no earlier parameter carries is the one `Lookup` finds. */
  lemma {:induction false} LookupFirst(ps: seq<Param>, i: nat)
    requires i < |ps|
    requires forall j :: 0 <= j < i ==> ps[j].key != ps[i].key
    ensures Lookup(ps, ps[i].key) == Some(ps[i].value)
  {
    if i > 0 {
      LookupFirst(ps[1..], i - 1);
    }
  }

  /** The keys of a request, in the order `fetchUsers` lists them. */
  const ParamKeys: seq<Key> :=
    [Page, Limit, SearchTerm, FilterKey(Gender), FilterKey(Domain), FilterKey(Availability)]

  /** The parameters `fetchUsers` passes to `URLSearchParams`, in order: page,
      limit, search term, then each filter list comma-joined. */
  function RequestParams(q: Request): (r: seq<Param>)
    ensures Keys(r) == ParamKeys
    ensures Lookup(r, Page) == Some(Number(q.page))
    ensures Lookup(r, Limit) == Some(Number(PageSize))
    ensures Lookup(r, SearchTerm) == Some(Text(q.searchTerm))
    ensures Lookup(r, FilterKey(Gender)) == Some(Text(Join(q.filters.gender, ',')))
    ensures Lookup(r, FilterKey(Domain)) == Some(Text(Join(q.filters.domain, ',')))
    ensures Lookup(r, FilterKey(Availability)) == Some(Text(Join(q.filters.availability, ',')))
  {
    var r :=
      [ Param(Page, Number(q.page)),
        Param(Limit, Number(PageSize)),
        Param(SearchTerm, Text(q.searchTerm)),
        Param(FilterKey(Gender), Text(Join(q.filters.gender, ','))),
        Param(FilterKey(Domain), Text(Join(q.filters.domain, ','))),
        Param(FilterKey(Availability), Text(Join(q.filters.availability, ','))) ];
    LookupFirst(r, 2);
    LookupFirst(r, 3);
    LookupFirst(r, 4);
    LookupFirst(r, 5);
    r
  }

  /** Reading a comma-joined list back: the empty string is no values. */
  function ParseList(s: string): seq<string>
  {
    if s == "" then [] else Split(s, ',')
  }

  /** Reading the request back from its parameters. */
  function DecodeParams(ps: seq<Param>): Option<Request>
  {
    match (Lookup(ps, Page), Lookup(ps, SearchTerm), Lookup(ps, FilterKey(Gender)),
           Lookup(ps, FilterKey(Domain)), Lookup(ps, FilterKey(Availability)))
    case (Some(Number(p)), Some(Text(t)), Some(Text(g)), Some(Text(d)), Some(Text(a))) =>
      Some(Request(p, t, Filters(ParseList(g), ParseList(d), ParseList(a))))
    case _ => None
  }

  /** No value holds a comma and the list is not the single empty value:
      exactly the lists that survive the comma join. */
  predicate Recoverable(values: seq<string>)
  {
    values != [""] && forall i :: 0 <= i < |values| ==> ',' !in values[i]
  }

  /** A recoverable list is read back from its comma join. */
  lemma ParseJoin(values: seq<string>)
    requires Recoverable(values)
    ensures ParseList(Join(values, ',')) == values
  {
    if values != [] {
      SplitJoin(values, ',');
      if |values| >= 2 {
        assert ',' in Join(values, ',');
      }
    }
  }

  /** The parameters determine the request they were built from, as long as
      every filter list is recoverable. */
  lemma RequestParamsRoundTrip(q: Request)
    requires Recoverable(q.filters.gender) && Recoverable(q.filters.domain) && Recoverable(q.filters.availability)
    ensures DecodeParams(RequestParams(q)) == Some(q)
  {
    ParseJoin(q.filters.gender);
    ParseJoin(q.filters.domain);
    ParseJoin(q.filters.availability);
  }

  /** A lone empty filter value is lost in the join: checking it sends the same
      parameters as checking nothing. */
  lemma EmptyValueIsLost(page: int, searchTerm: string)
    ensures RequestParams(Request(page, searchTerm, Filters([""], [], [])))
         == RequestParams(Request(page, searchTerm, NoFilters))
  {
  }

  /** A value holding a comma is lost in the join: it sends the same text as
      the two values on either side of the comma. */
  lemma CommaValueIsLost(x: string, y: string)
    ensures Join([x + "," + y], ',') == Join([x, y], ',')
  {
  }
}
