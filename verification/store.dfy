/** The store front of src/main.rs as a pure state machine: `Update` takes the
    current state and a message and returns the next state together with the
    one effect the front end asks its runtime to perform. `Perform` runs an
    effect against the catalog client and yields the message it delivers back. */
module Store {
  import opened Wrappers
  import opened Text
  import Catalog

  /** A query shorter than this many bytes does not start a search. */
  const MinSearchLength: nat := 2

  /** The categories offered as buttons. */
  datatype Category = All | Development | Graphics | Office | Games | Multimedia | Network | Utilities

  /** The label shown for a category. */
  function AsStr(c: Category): string
  {
    match c
    case All => "All"
    case Development => "Development"
    case Graphics => "Graphics"
    case Office => "Office"
    case Games => "Games"
    case Multimedia => "Multimedia"
    case Network => "Network"
    case Utilities => "Utilities"
  }

  /** The token the catalog service knows a category by; it is always a
      category the client accepts. */
  function ToApiCategory(c: Category): (token: string)
    ensures Catalog.IsValidCategory(token)
  {
    var token :=
      match c
      case All => "all"
      case Development => "development"
      case Graphics => "graphics"
      case Office => "office"
      case Games => "games"
      case Multimedia => "multimedia"
      case Network => "network"
      case Utilities => "utilities";
    Catalog.PlainCategoryIsValid(token);
    token
  }

  /** The token of a category is its label in lower case. */
  lemma ApiTokenIsLowerLabel(c: Category)
    ensures ToApiCategory(c) == Lower(AsStr(c))
  {
    LowerPointwise(AsStr(c), ToApiCategory(c));
  }

  /** Distinct categories are fetched under distinct tokens. */
  lemma ToApiCategoryInjective(c1: Category, c2: Category)
    requires ToApiCategory(c1) == ToApiCategory(c2)
    ensures c1 == c2
  {
  }

  /** What the front end remembers between messages. */
  datatype State = State(
    searchQuery: string,
    selectedCategory: Category,
    apps: seq<Catalog.AppInfo>,
    loading: bool,
    errorMessage: Option<string>)

  /** What a fetch or a search reports back: the applications or a message. */
  type Report = Result<seq<Catalog.AppInfo>, string>

  /** The inputs the front end reacts to. */
  datatype Message =
    | SearchChanged(query: string)
    | CategorySelected(category: Category)
    | AppSelected(appName: string)
    | LoadApps
    | AppsLoaded(report: Report)
    | SearchApps
    | SearchResults(report: Report)

  /** The work an update asks for: nothing, a search message to be delivered
      next, a fetch of one category, or a search for one keyword. */
  datatype Effect = NoTask | ScheduleSearch | Fetch(category: string) | Search(keyword: string)

  /** The result of one update. */
  datatype Step = Step(state: State, effect: Effect)

  /** The state at start-up: empty query, category All, no applications, not
      loading, no error. */
  function Default(): State
  {
    State("", All, [], false, None)
  }

  /** An error is shown only with an empty application list, and a load in
      progress never shows an error. */
  predicate Consistent(s: State)
  {
    && (s.errorMessage.Some? ==> s.apps == [])
    && (s.loading ==> s.errorMessage.None?)
  }

  /** The start-up state is consistent: it is not loading and shows no error. */
  lemma DefaultConsistent()
    ensures Consistent(Default())
    ensures !Default().loading && Default().errorMessage.None?
  {
  }

  /** Takes in what a fetch or a search reported: stop loading, then either
      show the applications or show the error over an emptied list. */
  function Receive(s: State, report: Report): (t: State)
    ensures !t.loading
    ensures t.searchQuery == s.searchQuery && t.selectedCategory == s.selectedCategory
    ensures report.Success? ==> t.apps == report.value && t.errorMessage == None
    ensures report.Failure? ==> t.apps == [] && t.errorMessage == Some(report.error)
  {
    match report
    case Success(apps) => s.(loading := false, apps := apps, errorMessage := None)
    case Failure(e) => s.(loading := false, apps := [], errorMessage := Some(e))
  }

  /** One step of the front end. */
  function Update(s: State, m: Message): (r: Step)
    ensures m.SearchChanged? ==>
              && r.state == s.(searchQuery := m.query)
              && (r.effect == ScheduleSearch <==> Utf8Len(m.query) >= MinSearchLength)
              && (r.effect == NoTask <==> Utf8Len(m.query) < MinSearchLength)
    ensures m.CategorySelected? ==>
              && r.state == s.(selectedCategory := m.category, searchQuery := "", loading := true, errorMessage := None)
              && r.effect == Fetch(ToApiCategory(m.category))
    ensures m.LoadApps? ==>
              && r.state == s.(loading := true, errorMessage := None)
              && r.effect == Fetch(ToApiCategory(s.selectedCategory))
    ensures m.SearchApps? && s.searchQuery == [] ==> r == Step(s, NoTask)
    ensures m.SearchApps? && s.searchQuery != [] ==>
              && r.state == s.(loading := true, errorMessage := None)
              && r.effect == Search(s.searchQuery)
    ensures (m.AppsLoaded? || m.SearchResults?) ==>
              r.state == Receive(s, m.report) && r.effect == NoTask
    ensures m.AppSelected? ==> r == Step(s, NoTask)
  {
    match m
    case SearchChanged(query) =>
      var t := s.(searchQuery := query);
      if Utf8Len(t.searchQuery) >= MinSearchLength then Step(t, ScheduleSearch) else Step(t, NoTask)
    case CategorySelected(category) =>
      var t := s.(selectedCategory := category, searchQuery := "", loading := true, errorMessage := None);
      Step(t, Fetch(ToApiCategory(category)))
    case LoadApps =>
      var t := s.(loading := true, errorMessage := None);
      Step(t, Fetch(ToApiCategory(t.selectedCategory)))
    case AppsLoaded(report) =>
      Step(Receive(s, report), NoTask)
    case SearchApps =>
      if s.searchQuery == [] then Step(s, NoTask)
      else
        var t := s.(loading := true, errorMessage := None);
        Step(t, Search(t.searchQuery))
    case SearchResults(report) =>
      Step(Receive(s, report), NoTask)
    case AppSelected(_) =>
      Step(s, NoTask)
  }

  /** Every update keeps the state consistent. */
  lemma UpdateKeepsConsistent(s: State, m: Message)
    requires Consistent(s)
    ensures Consistent(Update(s, m).state)
  {
  }

  /** The state after handling `msgs` in order, starting from `s`. */
  function Run(s: State, msgs: seq<Message>): State
    decreases |msgs|
  {
    if msgs == [] then s else Run(Update(s, msgs[0]).state, msgs[1..])
  }

  /** Any sequence of messages keeps a consistent state consistent. */
  lemma {:induction false} RunKeepsConsistent(s: State, msgs: seq<Message>)
    requires Consistent(s)
    ensures Consistent(Run(s, msgs))
    decreases |msgs|
  {
    if msgs != [] {
      UpdateKeepsConsistent(s, msgs[0]);
      RunKeepsConsistent(Update(s, msgs[0]).state, msgs[1..]);
    }
  }

  /** No sequence of messages from start-up shows an error next to a
      non-empty list of applications. */
  lemma ReachableConsistent(msgs: seq<Message>)
    ensures Run(Default(), msgs).errorMessage.Some? ==> Run(Default(), msgs).apps == []
    ensures Run(Default(), msgs).loading ==> Run(Default(), msgs).errorMessage.None?
  {
    DefaultConsistent();
    RunKeepsConsistent(Default(), msgs);
  }

  /** Every category an update asks to fetch passes the client's validation. */
  lemma FetchEffectsAreValid(s: State, m: Message)
    ensures Update(s, m).effect.Fetch? ==> Catalog.IsValidCategory(Update(s, m).effect.category)
  {
  }

  /** A search is only ever asked for with a non-empty keyword, and it is the
      query the state holds. */
  lemma SearchEffectsHaveQuery(s: State, m: Message)
    ensures Update(s, m).effect.Search? ==>
              Update(s, m).effect.keyword != [] && Update(s, m).effect.keyword == s.searchQuery
  {
  }

  /** Turns a fetch outcome into what the front end receives: the
      applications, or the error's message. */
  function ReportOf(f: Catalog.Fetched): (r: Report)
    ensures r.Success? <==> f.result.Success?
    ensures r.Success? ==> r.value == f.result.value
    ensures r.Failure? ==> r.error == Catalog.Describe(f.result.error)
  {
    f.result.MapFailure(Catalog.Describe)
  }

  /** Runs an effect with the catalog client and the network, giving the
      message that comes back, if any. */
  function Perform(e: Effect, api: Catalog.Api, net: Catalog.Network): (m: Option<Message>)
    ensures m.None? <==> e == NoTask
    ensures e == ScheduleSearch ==> m == Some(SearchApps)
    ensures e.Fetch? ==> m == Some(AppsLoaded(ReportOf(Catalog.FetchAppList(api, e.category, net))))
    ensures e.Search? ==> m == Some(SearchResults(ReportOf(Catalog.SearchApps(api, e.keyword, net))))
  {
    match e
    case NoTask => None
    case ScheduleSearch => Some(SearchApps)
    case Fetch(category) => Some(AppsLoaded(ReportOf(Catalog.FetchAppList(api, category, net))))
    case Search(keyword) => Some(SearchResults(ReportOf(Catalog.SearchApps(api, keyword, net))))
  }

  /** Typing a query of at least two bytes leads, through the scheduled
      message, to a search for exactly that query. */
  lemma TypedQueryIsSearched(s: State, q: string, api: Catalog.Api, net: Catalog.Network)
    requires Utf8Len(q) >= MinSearchLength
    ensures var typed := Update(s, SearchChanged(q));
            && typed.effect == ScheduleSearch
            && Perform(typed.effect, api, net) == Some(SearchApps)
            && Update(typed.state, SearchApps).effect == Search(q)
            && Update(typed.state, SearchApps).state.loading
  {
  }

  /** The byte-length gate: a single non-ASCII character already counts as
      two bytes and starts a search, while a single ASCII character does not. */
  lemma SearchGateCountsBytes(s: State)
    ensures Update(s, SearchChanged("\U{E9}")).effect == ScheduleSearch
    ensures Update(s, SearchChanged("a")).effect == NoTask
  {
    assert Utf8Len("\U{E9}") == 2 by {
      assert "\U{E9}"[1..] == [];
    }
    assert Utf8Len("a") == 1 by {
      assert "a"[1..] == [];
    }
  }

  /** Fetching the listing of a selected category never fails validation: the
      front end never shows "Invalid category name". */
  lemma SelectedCategoryNeverInvalid(s: State, c: Category, api: Catalog.Api, net: Catalog.Network)
    ensures var m := Perform(Update(s, CategorySelected(c)).effect, api, net);
            && m.Some? && m.value.AppsLoaded?
            && m.value.report != Failure("Invalid category name")
  {
    var f := Catalog.FetchAppList(api, ToApiCategory(c), net);
    if f.result.Failure? {
      Catalog.DescribeInvalidOnly(f.result.error);
    }
  }
}
