/**
 * `CareerUiFlow`: the faculty / career menu. A search query filters the
 * faculties by a case-insensitive substring match on their names, ids or
 * career names (keeping the master order and dropping repeats); selecting a
 * faculty opens its careers; selecting a career fills the info card, whose
 * salary part is shown only when some salary text is present.
 *
 * Faculties and careers are configuration objects compared by reference, so
 * they are classes with constant fields.
 */
module CareerFlow {
  import opened Common
  import opened Text

  class CareerConfig {
    const displayName: Option<string>
    const salaryEntry: Option<string>
    const salaryMid: Option<string>
    const salarySenior: Option<string>

    constructor (displayName: Option<string>, salaryEntry: Option<string>, salaryMid: Option<string>,
                 salarySenior: Option<string>)
      ensures this.displayName == displayName && this.salaryEntry == salaryEntry
      ensures this.salaryMid == salaryMid && this.salarySenior == salarySenior
    {
      this.displayName := displayName;
      this.salaryEntry := salaryEntry;
      this.salaryMid := salaryMid;
      this.salarySenior := salarySenior;
    }
  }

  class FacultyConfig {
    const facultyId: Option<string>
    const displayName: Option<string>
    /** `careers`, which may be `null`. */
    const careers: Option<seq<CareerConfig>>

    constructor (facultyId: Option<string>, displayName: Option<string>, careers: Option<seq<CareerConfig>>)
      ensures this.facultyId == facultyId && this.displayName == displayName && this.careers == careers
    {
      this.facultyId := facultyId;
      this.displayName := displayName;
      this.careers := careers;
    }
  }

  // ---------------------------------------------------------------------
  // Matching
  // ---------------------------------------------------------------------

  /**
   * The local `ContainsIC`: an empty needle is found everywhere, an empty
   * haystack holds nothing else, otherwise a case-insensitive `IndexOf`.
   */
  function ContainsIC(hay: Option<string>, needle: Option<string>): (r: bool)
    ensures IsNullOrEmpty(needle) ==> r
    ensures !IsNullOrEmpty(needle) && IsNullOrEmpty(hay) ==> !r
    ensures !IsNullOrEmpty(needle) && !IsNullOrEmpty(hay) ==> (r <==> OccursIgnoreCase(hay.value, needle.value))
  {
    if IsNullOrEmpty(needle) then true
    else if IsNullOrEmpty(hay) then false
    else IndexOfIgnoreCase(hay.value, needle.value, 0) >= 0
  }

  /** Some career of the list has a matching display name. */
  predicate AnyCareerMatches(cs: seq<CareerConfig>, q: string)
  {
    exists k :: 0 <= k < |cs| && ContainsIC(cs[k].displayName, Some(q))
  }

  /** A faculty is kept when its name or id matches, or one of its careers does. */
  predicate Matches(f: FacultyConfig, q: string)
  {
    || ContainsIC(f.displayName, Some(q)) || ContainsIC(f.facultyId, Some(q))
    || (f.careers.Some? && AnyCareerMatches(f.careers.value, q))
  }

  /** The filter loop from a point on, with the faculties already `seen`. */
  function FilterFrom(fs: seq<FacultyConfig>, q: string, seen: set<FacultyConfig>): seq<FacultyConfig>
    decreases |fs|
  {
    if fs == [] then []
    else if Matches(fs[0], q) && fs[0] !in seen then [fs[0]] + FilterFrom(fs[1..], q, seen + {fs[0]})
    else FilterFrom(fs[1..], q, seen)
  }

  /** The faculties a non-empty query keeps, in master order, each once. */
  function Filtered(fs: seq<FacultyConfig>, q: string): seq<FacultyConfig>
  {
    FilterFrom(fs, q, {})
  }

  /** The careers of one list the fallback keeps: a non-empty name containing `q`. */
  function CareersMatching(cs: seq<CareerConfig>, q: string): seq<CareerConfig>
    decreases |cs|
  {
    if cs == [] then []
    else
      var c := cs[|cs| - 1];
      var keep := !IsNullOrEmpty(c.displayName) && IndexOfIgnoreCase(c.displayName.value, q, 0) >= 0;
      CareersMatching(cs[..|cs| - 1], q) + (if keep then [c] else [])
  }

  /** The fallback's flat career list over all faculties. */
  function MatchedCareers(fs: seq<FacultyConfig>, q: string): seq<CareerConfig>
    decreases |fs|
  {
    if fs == [] then []
    else
      var f := fs[|fs| - 1];
      MatchedCareers(fs[..|fs| - 1], q) + (if f.careers.Some? then CareersMatching(f.careers.value, q) else [])
  }

  /** `Array.IndexOf`: the first position holding `f`, or -1. */
  function FirstIndexOf(fs: seq<FacultyConfig>, f: FacultyConfig): (r: int)
    ensures r == -1 || (0 <= r < |fs| && fs[r] == f)
    ensures forall j :: 0 <= j < |fs| && (r == -1 || j < r) ==> fs[j] != f
    decreases |fs|
  {
    if fs == [] then -1
    else if fs[0] == f then 0
    else
      var r := FirstIndexOf(fs[1..], f);
      if r == -1 then -1 else r + 1
  }

  // ---------------------------------------------------------------------
  // The two collecting loops of `OnSearchSubmitted`
  // ---------------------------------------------------------------------

  /** The faculty loop with its `seen` set and the inner career loop that stops at the first match. */
  method FilterFaculties(faculties: seq<FacultyConfig>, q: string) returns (filtered: seq<FacultyConfig>)
    ensures filtered == Filtered(faculties, q)
  {
    filtered := [];
    var seen: set<FacultyConfig> := {};
    var i := 0;
    while i < |faculties|
      invariant 0 <= i <= |faculties|
      invariant forall x :: x in seen <==> x in filtered
      invariant filtered + FilterFrom(faculties[i..], q, seen) == Filtered(faculties, q)
    {
      var f := faculties[i];
      var byName := ContainsIC(f.displayName, Some(q)) || ContainsIC(f.facultyId, Some(q));
      var byCareer := false;
      if f.careers.Some? {
        var cs := f.careers.value;
        var j := 0;
        while j < |cs|
          invariant 0 <= j <= |cs|
          invariant !byCareer ==> forall k :: 0 <= k < j ==> !ContainsIC(cs[k].displayName, Some(q))
          invariant byCareer ==> AnyCareerMatches(cs, q)
          invariant !byCareer || j < |cs|
        {
          if ContainsIC(cs[j].displayName, Some(q)) {
            byCareer := true;
            break;
          }
          j := j + 1;
        }
      }
      assert byName || byCareer <==> Matches(f, q);
      assert faculties[i..][0] == f && faculties[i..][1..] == faculties[i + 1..];
      if (byName || byCareer) && f !in seen {
        seen := seen + {f};
        filtered := filtered + [f];
      }
      i := i + 1;
    }
  }

  /** The fallback loop: every career, faculty by faculty, whose name contains `q`. */
  method CollectCareers(faculties: seq<FacultyConfig>, q: string) returns (matched: seq<CareerConfig>)
    ensures matched == MatchedCareers(faculties, q)
  {
    matched := [];
    var i := 0;
    while i < |faculties|
      invariant 0 <= i <= |faculties|
      invariant matched == MatchedCareers(faculties[..i], q)
    {
      var f := faculties[i];
      assert faculties[..i + 1][..i] == faculties[..i];
      if f.careers.Some? {
        var cs := f.careers.value;
        var j := 0;
        while j < |cs|
          invariant 0 <= j <= |cs|
          invariant matched == MatchedCareers(faculties[..i], q) + CareersMatching(cs[..j], q)
        {
          var c := cs[j];
          assert cs[..j + 1][..j] == cs[..j];
          if !IsNullOrEmpty(c.displayName) && IndexOfIgnoreCase(c.displayName.value, q, 0) >= 0 {
            matched := matched + [c];
          }
          j := j + 1;
        }
        assert cs[..|cs|] == cs;
      }
      i := i + 1;
    }
    assert faculties[..|faculties|] == faculties;
  }

  // ---------------------------------------------------------------------
  // Properties of the filter
  // ---------------------------------------------------------------------

  /** A faculty is in the result iff it is in the list, matches and was not seen before. */
  lemma {:induction false} FilterFromMembership(fs: seq<FacultyConfig>, q: string, seen: set<FacultyConfig>,
                                                 x: FacultyConfig)
    ensures x in FilterFrom(fs, q, seen) <==> x in fs && Matches(x, q) && x !in seen
    decreases |fs|
  {
    if fs != [] {
      assert fs == [fs[0]] + fs[1..];
      if Matches(fs[0], q) && fs[0] !in seen {
        FilterFromMembership(fs[1..], q, seen + {fs[0]}, x);
      } else {
        FilterFromMembership(fs[1..], q, seen, x);
      }
    }
  }

  /** The filtered list holds exactly the matching faculties. */
  lemma FilterMembership(fs: seq<FacultyConfig>, q: string, x: FacultyConfig)
    ensures x in Filtered(fs, q) <==> x in fs && Matches(x, q)
  {
    FilterFromMembership(fs, q, {}, x);
  }

  /** No faculty appears twice. */
  lemma {:induction false} FilterFromNoDuplicates(fs: seq<FacultyConfig>, q: string, seen: set<FacultyConfig>)
    ensures Distinct(FilterFrom(fs, q, seen))
    decreases |fs|
  {
    if fs != [] {
      if Matches(fs[0], q) && fs[0] !in seen {
        var rest := FilterFrom(fs[1..], q, seen + {fs[0]});
        FilterFromNoDuplicates(fs[1..], q, seen + {fs[0]});
        FilterFromMembership(fs[1..], q, seen + {fs[0]}, fs[0]);
        var r := [fs[0]] + rest;
        forall i, j | 0 <= i < j < |r|
          ensures r[i] != r[j]
        {
          if i == 0 {
            assert r[j] == rest[j - 1];
          } else {
            assert r[i] == rest[i - 1] && r[j] == rest[j - 1];
          }
        }
      } else {
        FilterFromNoDuplicates(fs[1..], q, seen);
        assert FilterFrom(fs, q, seen) == FilterFrom(fs[1..], q, seen);
      }
    }
  }

  /** `a` is `b` with some elements left out, in the same order. */
  predicate IsSubsequence<T(==)>(a: seq<T>, b: seq<T>)
    decreases |b|
  {
    a == [] || (b != [] && ((a[0] == b[0] && IsSubsequence(a[1..], b[1..])) || IsSubsequence(a, b[1..])))
  }

  /** The filter keeps the master order. */
  lemma {:induction false} FilterFromKeepsOrder(fs: seq<FacultyConfig>, q: string, seen: set<FacultyConfig>)
    ensures IsSubsequence(FilterFrom(fs, q, seen), fs)
    decreases |fs|
  {
    if fs != [] {
      if Matches(fs[0], q) && fs[0] !in seen {
        FilterFromKeepsOrder(fs[1..], q, seen + {fs[0]});
        var r := FilterFrom(fs, q, seen);
        assert r[0] == fs[0] && r[1..] == FilterFrom(fs[1..], q, seen + {fs[0]});
      } else {
        FilterFromKeepsOrder(fs[1..], q, seen);
      }
    }
  }

  /** The three promises of the filter: exactly the matches, each once, in master order. */
  lemma FilterIsOrderedAndDistinct(fs: seq<FacultyConfig>, q: string)
    ensures forall x :: x in Filtered(fs, q) <==> x in fs && Matches(x, q)
    ensures Distinct(Filtered(fs, q))
    ensures IsSubsequence(Filtered(fs, q), fs)
  {
    forall x {
      FilterMembership(fs, q, x);
    }
    FilterFromNoDuplicates(fs, q, {});
    FilterFromKeepsOrder(fs, q, {});
  }

  /** With a non-empty query the fallback's test is `ContainsIC`. */
  lemma FallbackTestIsContainsIC(c: CareerConfig, q: string)
    requires q != []
    ensures (!IsNullOrEmpty(c.displayName) && IndexOfIgnoreCase(c.displayName.value, q, 0) >= 0)
            <==> ContainsIC(c.displayName, Some(q))
  {
  }

  lemma {:induction false} NoMatchingCareerKeepsNone(cs: seq<CareerConfig>, q: string)
    requires q != [] && !AnyCareerMatches(cs, q)
    ensures CareersMatching(cs, q) == []
    decreases |cs|
  {
    if cs != [] {
      var c := cs[|cs| - 1];
      FallbackTestIsContainsIC(c, q);
      assert !ContainsIC(c.displayName, Some(q));
      var init := cs[..|cs| - 1];
      assert !AnyCareerMatches(init, q) by {
        forall k | 0 <= k < |init|
          ensures !ContainsIC(init[k].displayName, Some(q))
        {
          assert init[k] == cs[k];
        }
      }
      NoMatchingCareerKeepsNone(init, q);
    }
  }

  lemma {:induction false} NoMatchingFacultyKeepsNone(fs: seq<FacultyConfig>, q: string)
    requires q != [] && forall k :: 0 <= k < |fs| ==> !Matches(fs[k], q)
    ensures MatchedCareers(fs, q) == []
    decreases |fs|
  {
    if fs != [] {
      var f := fs[|fs| - 1];
      assert !Matches(f, q);
      if f.careers.Some? {
        NoMatchingCareerKeepsNone(f.careers.value, q);
      }
      assert forall k :: 0 <= k < |fs| - 1 ==> fs[..|fs| - 1][k] == fs[k];
      NoMatchingFacultyKeepsNone(fs[..|fs| - 1], q);
    }
  }

  /**
   * The flat career fallback never has anything to show: a career matching
   * the query already makes its faculty pass the filter.
   */
  lemma FallbackIsAlwaysEmpty(fs: seq<FacultyConfig>, q: string)
    requires q != [] && Filtered(fs, q) == []
    ensures MatchedCareers(fs, q) == []
  {
    forall k | 0 <= k < |fs|
      ensures !Matches(fs[k], q)
    {
      FilterMembership(fs, q, fs[k]);
    }
    NoMatchingFacultyKeepsNone(fs, q);
  }

  // ---------------------------------------------------------------------
  // Screen state and the view switches
  // ---------------------------------------------------------------------

  datatype Mode = FacultyMode | CareerMode

  /**
   * The menu bar's buttons: faculty buttons each select a master index,
   * career buttons select their position in the shown list.
   */
  datatype Menu = FacultyButtons(targets: seq<int>) | CareerButtons(list: seq<CareerConfig>)

  datatype FlowState = FlowState(
    mode: Mode,
    currentFaculty: int,
    currentCareer: int,
    activeCareers: seq<CareerConfig>,
    menu: Menu,
    backShown: bool,
    infoShown: bool,
    salaryShown: bool,
    title: Option<string>,
    menuBarActive: bool)

  /** The master index each button of a filtered list selects (`Array.IndexOf`). */
  function Targets(fs: seq<FacultyConfig>, list: seq<FacultyConfig>): (r: seq<int>)
    ensures |r| == |list|
    ensures forall k :: 0 <= k < |list| && list[k] in fs ==> 0 <= r[k] < |fs| && fs[r[k]] == list[k]
  {
    seq(|list|, k requires 0 <= k < |list| => FirstIndexOf(fs, list[k]))
  }

  /** `ShowFacultyListFiltered` over `list`; buttons map back to master indices. */
  function ShowFiltered(fs: seq<FacultyConfig>, s: FlowState, list: seq<FacultyConfig>): FlowState
  {
    s.(mode := FacultyMode, currentFaculty := -1, currentCareer := -1,
       menu := FacultyButtons(Targets(fs, list)),
       backShown := false, infoShown := false, salaryShown := false)
  }

  /** `ShowFacultyList`: every faculty, button `i` selecting faculty `i`. */
  function ShowAll(fs: seq<FacultyConfig>, s: FlowState): FlowState
  {
    s.(mode := FacultyMode, currentFaculty := -1, currentCareer := -1,
       menu := FacultyButtons(seq(|fs|, i => i)),
       backShown := false, infoShown := false, salaryShown := false)
  }

  /** The career list of the fallback or of a faculty, with the back button shown. */
  function ShowCareers(s: FlowState, list: seq<CareerConfig>): FlowState
  {
    s.(mode := CareerMode, activeCareers := list, menu := CareerButtons(list), backShown := true)
  }

  /** `SelectFaculty(idx)`. */
  function AfterSelectFaculty(fs: seq<FacultyConfig>, s: FlowState, idx: int): FlowState
  {
    if idx < 0 || idx >= |fs| then s
    else
      var list := if fs[idx].careers.Some? then fs[idx].careers.value else [];
      ShowCareers(s, list).(currentFaculty := idx, infoShown := false, salaryShown := false)
  }

  /** The salary rule of `ApplyCareer`. */
  predicate HasAnySalary(c: CareerConfig)
  {
    !IsNullOrWhiteSpace(c.salaryEntry) || !IsNullOrWhiteSpace(c.salaryMid) || !IsNullOrWhiteSpace(c.salarySenior)
  }

  /** `SelectCareer(idx)` followed by `ApplyCareer`. */
  function AfterSelectCareer(s: FlowState, idx: int): FlowState
  {
    if idx < 0 || idx >= |s.activeCareers| then s
    else
      var c := s.activeCareers[idx];
      s.(currentCareer := idx, infoShown := true, title := c.displayName, salaryShown := HasAnySalary(c))
  }

  /** The search for the trimmed query `q`, once the menu bar is active again. */
  function SearchTrimmed(fs: seq<FacultyConfig>, s: FlowState, q: string): FlowState
  {
    if q == [] then ShowAll(fs, s)
    else
      var filtered := Filtered(fs, q);
      if |filtered| > 0 then ShowFiltered(fs, s, filtered)
      else
        var matched := MatchedCareers(fs, q);
        if |matched| > 0 then ShowCareers(s, matched)
        else ShowAll(fs, s)
  }

  /** The query as `(query ?? "").Trim()`. */
  function TrimmedQuery(query: Option<string>): string
  {
    Trim(if query.Some? then query.value else "")
  }

  /** `OnSearchSubmitted(query)`. */
  function Search(fs: seq<FacultyConfig>, s: FlowState, query: Option<string>): FlowState
  {
    SearchTrimmed(fs, s.(menuBarActive := true), TrimmedQuery(query))
  }

  // ---------------------------------------------------------------------
  // Properties of the flow
  // ---------------------------------------------------------------------

  /** An empty or blank query shows the whole faculty list. */
  lemma BlankQueryShowsAll(fs: seq<FacultyConfig>, s: FlowState, query: Option<string>)
    requires query.None? || AllWhiteSpace(query.value)
    ensures var r := Search(fs, s, query);
      && r.mode == FacultyMode && r.menuBarActive
      && r.menu.FacultyButtons? && |r.menu.targets| == |fs|
      && forall i :: 0 <= i < |fs| ==> r.menu.targets[i] == i
  {
    if query.Some? {
      TrimEmptyIffWhiteSpace(query.value);
    }
  }

  /**
   * A search always ends on a faculty list: for a non-blank query that
   * matches something, one button per matching faculty, each selecting
   * that faculty's master index; otherwise the full list.
   */
  lemma SearchShowsMatchingFaculties(fs: seq<FacultyConfig>, s: FlowState, query: Option<string>)
    ensures var r := Search(fs, s, query);
      && r.mode == FacultyMode && r.menu.FacultyButtons? && !r.backShown && r.menuBarActive
      && r.currentFaculty == -1 && r.currentCareer == -1
      && forall k :: 0 <= k < |r.menu.targets| ==> 0 <= r.menu.targets[k] < |fs|
    ensures var q := TrimmedQuery(query);
      var r := Search(fs, s, query);
      q != [] && Filtered(fs, q) != [] ==>
        && |r.menu.targets| == |Filtered(fs, q)|
        && forall k :: 0 <= k < |r.menu.targets| ==>
             fs[r.menu.targets[k]] == Filtered(fs, q)[k] && Matches(fs[r.menu.targets[k]], q)
  {
    SearchTrimmedShowsMatchingFaculties(fs, s.(menuBarActive := true), TrimmedQuery(query));
  }

  lemma SearchTrimmedShowsMatchingFaculties(fs: seq<FacultyConfig>, s: FlowState, q: string)
    requires s.menuBarActive
    ensures var r := SearchTrimmed(fs, s, q);
      && r.mode == FacultyMode && r.menu.FacultyButtons? && !r.backShown && r.menuBarActive
      && r.currentFaculty == -1 && r.currentCareer == -1
      && forall k :: 0 <= k < |r.menu.targets| ==> 0 <= r.menu.targets[k] < |fs|
    ensures var r := SearchTrimmed(fs, s, q);
      q != [] && Filtered(fs, q) != [] ==>
        && |r.menu.targets| == |Filtered(fs, q)|
        && forall k :: 0 <= k < |r.menu.targets| ==>
             fs[r.menu.targets[k]] == Filtered(fs, q)[k] && Matches(fs[r.menu.targets[k]], q)
  {
    if q != [] {
      var filtered := Filtered(fs, q);
      if |filtered| > 0 {
        forall k | 0 <= k < |filtered|
          ensures filtered[k] in fs && Matches(filtered[k], q)
        {
          FilterMembership(fs, q, filtered[k]);
        }
      } else {
        FallbackIsAlwaysEmpty(fs, q);
      }
    }
  }

  /**
   * Running the search a second time with the same query (the keyboard
   * delivers Enter to this handler twice) gives the same screen as once.
   */
  lemma SearchTwiceIsSearchOnce(fs: seq<FacultyConfig>, s: FlowState, query: Option<string>)
    ensures Search(fs, Search(fs, s, query), query) == Search(fs, s, query)
  {
  }

  /** `SelectFaculty` ignores indices outside the faculty array. */
  lemma SelectFacultyGuard(fs: seq<FacultyConfig>, s: FlowState, idx: int)
    ensures idx < 0 || idx >= |fs| ==> AfterSelectFaculty(fs, s, idx) == s
    ensures 0 <= idx < |fs| ==>
      var r := AfterSelectFaculty(fs, s, idx);
      && r.currentFaculty == idx && r.mode == CareerMode && r.backShown
      && (fs[idx].careers.Some? ==> r.activeCareers == fs[idx].careers.value)
      && (fs[idx].careers.None? ==> r.activeCareers == [])
  {
  }

  /** Every career button shown for a faculty is an index `SelectCareer` accepts. */
  lemma CareerButtonsAreSelectable(fs: seq<FacultyConfig>, s: FlowState, idx: int, k: int)
    requires 0 <= idx < |fs|
    requires var r := AfterSelectFaculty(fs, s, idx); r.menu.CareerButtons? && 0 <= k < |r.menu.list|
    ensures var r := AfterSelectFaculty(fs, s, idx);
      var n := AfterSelectCareer(r, k);
      n.currentCareer == k && n.infoShown && n.title == r.menu.list[k].displayName
  {
  }

  /** `SelectCareer` ignores indices outside the active career list. */
  lemma SelectCareerGuard(s: FlowState, idx: int)
    ensures idx < 0 || idx >= |s.activeCareers| ==> AfterSelectCareer(s, idx) == s
    ensures 0 <= idx < |s.activeCareers| ==>
      var r := AfterSelectCareer(s, idx);
      r.currentCareer == idx && r.infoShown && r.currentFaculty == s.currentFaculty
      && r.activeCareers == s.activeCareers && r.menu == s.menu
  {
  }

  /** The salary card shows iff one of the three salary texts has a non-white-space character. */
  lemma SalaryShownIffSomeSalary(s: FlowState, idx: int)
    requires 0 <= idx < |s.activeCareers|
    ensures var c := s.activeCareers[idx];
      AfterSelectCareer(s, idx).salaryShown <==>
        exists t :: t in [c.salaryEntry, c.salaryMid, c.salarySenior] && t.Some?
          && exists i :: 0 <= i < |t.value| && !IsWhiteSpace(t.value[i])
  {
    var c := s.activeCareers[idx];
    assert c.salaryEntry in [c.salaryEntry, c.salaryMid, c.salarySenior];
    assert c.salaryMid in [c.salaryEntry, c.salaryMid, c.salarySenior];
    assert c.salarySenior in [c.salaryEntry, c.salaryMid, c.salarySenior];
  }

  // ---------------------------------------------------------------------
  // The component, updating its fields in place
  // ---------------------------------------------------------------------

  class CareerUiFlow {
    const faculties: seq<FacultyConfig>
    var mode: Mode
    var currentFaculty: int
    var currentCareer: int
    var activeCareers: seq<CareerConfig>
    var menu: Menu
    var backShown: bool
    var infoShown: bool
    var salaryShown: bool
    var title: Option<string>
    var menuBarActive: bool

    function State(): FlowState
      reads this
    {
      FlowState(mode, currentFaculty, currentCareer, activeCareers, menu, backShown, infoShown, salaryShown,
                title, menuBarActive)
    }

    /** The field initialisers followed by `Start`'s `ShowFacultyList`. */
    constructor (faculties: seq<FacultyConfig>)
      ensures this.faculties == faculties
      ensures State() == ShowAll(faculties, FlowState(FacultyMode, -1, -1, [], FacultyButtons([]),
                                                      false, false, false, None, true))
    {
      this.faculties := faculties;
      mode, currentFaculty, currentCareer, activeCareers := FacultyMode, -1, -1, [];
      menu := FacultyButtons(seq(|faculties|, i => i));
      backShown, infoShown, salaryShown, title, menuBarActive := false, false, false, None, true;
    }

    method ShowFacultyList()
      modifies this
      ensures State() == ShowAll(faculties, old(State()))
    {
      mode, currentFaculty, currentCareer := FacultyMode, -1, -1;
      menu := FacultyButtons(seq(|faculties|, i => i));
      backShown, infoShown, salaryShown := false, false, false;
    }

    method ShowFacultyListFiltered(filtered: seq<FacultyConfig>)
      modifies this
      ensures State() == ShowFiltered(faculties, old(State()), filtered)
    {
      mode, currentFaculty, currentCareer := FacultyMode, -1, -1;
      menu := FacultyButtons(Targets(faculties, filtered));
      backShown, infoShown, salaryShown := false, false, false;
    }

    method SelectFaculty(idx: int)
      modifies this
      ensures State() == AfterSelectFaculty(faculties, old(State()), idx)
    {
      if idx < 0 || idx >= |faculties| { return; }
      currentFaculty := idx;
      activeCareers := if faculties[idx].careers.Some? then faculties[idx].careers.value else [];
      mode, backShown, infoShown, salaryShown := CareerMode, true, false, false;
      menu := CareerButtons(activeCareers);
    }

    method SelectCareer(idx: int)
      modifies this
      ensures State() == AfterSelectCareer(old(State()), idx)
    {
      if idx < 0 || idx >= |activeCareers| { return; }
      currentCareer := idx;
      var c := activeCareers[idx];
      infoShown := true;
      title := c.displayName;
      salaryShown := !IsNullOrWhiteSpace(c.salaryEntry) || !IsNullOrWhiteSpace(c.salaryMid)
                     || !IsNullOrWhiteSpace(c.salarySenior);
    }

    method OnSearchSubmitted(query: Option<string>)
      modifies this
      ensures State() == Search(faculties, old(State()), query)
    {
      menuBarActive := true;
      var q := TrimmedQuery(query);
      if q == [] { ShowFacultyList(); return; }

      var filtered := FilterFaculties(faculties, q);
      if |filtered| > 0 {
        ShowFacultyListFiltered(filtered);
        return;
      }

      var matched := CollectCareers(faculties, q);
      if |matched| > 0 {
        mode, backShown := CareerMode, true;
        activeCareers := matched;
        menu := CareerButtons(matched);
      } else {
        ShowFacultyList();
      }
    }
  }
}
