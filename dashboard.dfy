/**
 * The dashboard's list logic: search, the failing and unstable filters, the health sort,
 * the grouping of endpoints and suites under their group names, the set of expanded
 * groups, the failure badge of each group and the split of announcements into active and
 * archived ones.
 *
 * Endpoints and suites go through the same rules, each seen through an `Entry`: its name,
 * its group, and the `success` of each of its results, oldest first. `toLowerCase` is the
 * parameter `fold`; `localeCompare` is `Sorting.LexLe`.
 */
module Dashboard {
  import opened Wrappers
  import opened Types
  import opened Strings
  import opened Seqs
  import opened Sorting
  import opened ResultStats

  /** The heading of the group that collects entries without a group. */
  const NoGroup := "No Group"

  /** The labels of the search bar's filter and sort menus that change the list. */
  const FailingFilter := "failing"
  const UnstableFilter := "unstable"
  const HealthSort := "health"
  const GroupSort := "group"

  datatype Entry = Entry(name: string, group: string, outcomes: seq<bool>)

  /** The entry of a named, grouped list of results, endpoint or suite: one outcome per
      result, in order. */
  function EntryOf<R>(name: string, group: string, rs: seq<R>, success: R -> bool): (en: Entry)
    ensures en.name == name && en.group == group && |en.outcomes| == |rs|
    ensures forall i :: 0 <= i < |rs| ==> en.outcomes[i] == success(rs[i])
  {
    Entry(name, group, seq(|rs|, i requires 0 <= i < |rs| => success(rs[i])))
  }

  function EndpointEntry(e: EndpointStatus): Entry
  {
    EntryOf(e.name, e.group, e.results, EndpointSuccess)
  }

  function SuiteEntry(s: SuiteStatus): Entry
  {
    EntryOf(s.name, s.group, s.results, SuiteSuccess)
  }

  /** The newest result failed. An entry without results is not failing. */
  predicate Failing(en: Entry)
  {
    |en.outcomes| > 0 && !en.outcomes[|en.outcomes| - 1]
  }

  /** Some result failed. */
  predicate Unstable(en: Entry)
  {
    exists i :: 0 <= i < |en.outcomes| && !en.outcomes[i]
  }

  /** The folded name, or the folded non-empty group, contains the folded query. */
  predicate MatchesSearch(en: Entry, query: string, fold: string -> string)
  {
    Contains(fold(en.name), fold(query)) || (en.group != "" && Contains(fold(en.group), fold(query)))
  }

  /** The entries the search keeps: all of them for an empty query. */
  function Searched<T(==)>(xs: seq<T>, view: T -> Entry, query: string, fold: string -> string): seq<T>
  {
    if query == "" then xs else Filter(xs, x => MatchesSearch(view(x), query, fold))
  }

  /** The entries the filter menu keeps: 'failing' and 'unstable' narrow the list, any other
      value keeps it. */
  function Narrowed<T(==)>(xs: seq<T>, view: T -> Entry, filter: string): seq<T>
  {
    if filter == FailingFilter then Filter(xs, x => Failing(view(x)))
    else if filter == UnstableFilter then Filter(xs, x => Unstable(view(x)))
    else xs
  }

  predicate PassesFilter(en: Entry, filter: string)
  {
    (filter == FailingFilter ==> Failing(en)) && (filter == UnstableFilter ==> Unstable(en))
  }

  /** The health comparator: failing entries first, then by name. */
  predicate HealthLe(a: Entry, b: Entry)
  {
    (Failing(a) && !Failing(b)) || (Failing(a) == Failing(b) && LexLe(a.name, b.name))
  }

  function HealthOrder<T>(view: T -> Entry): (T, T) -> bool
  {
    (a: T, b: T) => HealthLe(view(a), view(b))
  }

  /** Sorting by 'health' reorders the list; every other sort leaves it in the order the
      backend sent it ('group' is applied by the grouping instead). */
  function Ordered<T>(xs: seq<T>, view: T -> Entry, sortBy: string): seq<T>
  {
    if sortBy == HealthSort then SortBy(xs, HealthOrder(view)) else xs
  }

  /** `filteredEndpoints` and `filteredSuites`: search, then filter, then sort. */
  function Visible<T(==)>(xs: seq<T>, view: T -> Entry, query: string, filter: string, sortBy: string,
                          fold: string -> string): seq<T>
  {
    Ordered(Narrowed(Searched(xs, view, query, fold), view, filter), view, sortBy)
  }

  /** An entry is listed exactly when it is on the dashboard, matches a non-empty query and
      passes the filter. */
  lemma VisibleMembers<T>(xs: seq<T>, view: T -> Entry, query: string, filter: string, sortBy: string,
                              fold: string -> string, x: T)
    ensures x in Visible(xs, view, query, filter, sortBy, fold) <==>
      && x in xs
      && (query == "" || MatchesSearch(view(x), query, fold))
      && PassesFilter(view(x), filter)
  {
    var n := Narrowed(Searched(xs, view, query, fold), view, filter);
    if sortBy == HealthSort {
      assert multiset(SortBy(n, HealthOrder(view))) == multiset(n);
      assert x in n <==> x in multiset(n);
    }
  }

  /** Unless the list is sorted by health, it keeps the order it arrived in. */
  lemma VisibleKeepsOrder<T>(xs: seq<T>, view: T -> Entry, query: string, filter: string, sortBy: string,
                                 fold: string -> string)
    requires sortBy != HealthSort
    ensures IsSubsequence(Visible(xs, view, query, filter, sortBy, fold), xs)
  {
    var s := Searched(xs, view, query, fold);
    if query == "" {
      SubsequenceReflexive(xs);
    } else {
      FilterIsSubsequence(xs, x => MatchesSearch(view(x), query, fold));
    }
    var n := Narrowed(s, view, filter);
    if filter == FailingFilter {
      FilterIsSubsequence(s, x => Failing(view(x)));
    } else if filter == UnstableFilter {
      FilterIsSubsequence(s, x => Unstable(view(x)));
    } else {
      SubsequenceReflexive(s);
    }
    SubsequenceTransitive(n, s, xs);
  }

  /** With no query and no filter the whole list is shown: an empty dashboard then means
      that nothing is configured, as its message says. */
  lemma UnfilteredShowsAll<T>(xs: seq<T>, view: T -> Entry, filter: string, sortBy: string,
                                  fold: string -> string)
    requires filter != FailingFilter && filter != UnstableFilter
    ensures |Visible(xs, view, "", filter, sortBy, fold)| == |xs|
    ensures multiset(Visible(xs, view, "", filter, sortBy, fold)) == multiset(xs)
  {
  }

  /** A failing entry is unstable, so the 'failing' list never holds anything the
      'unstable' list lacks. */
  lemma FailingWithinUnstable<T>(xs: seq<T>, view: T -> Entry, query: string, sortBy: string,
                                     fold: string -> string, x: T)
    ensures x in Visible(xs, view, query, FailingFilter, sortBy, fold) ==>
      x in Visible(xs, view, query, UnstableFilter, sortBy, fold)
    ensures |Visible(xs, view, query, FailingFilter, sortBy, fold)| <=
      |Visible(xs, view, query, UnstableFilter, sortBy, fold)|
  {
    VisibleMembers(xs, view, query, FailingFilter, sortBy, fold, x);
    VisibleMembers(xs, view, query, UnstableFilter, sortBy, fold, x);
    var en := view(x);
    assert Failing(en) ==> !en.outcomes[|en.outcomes| - 1];
    var s := Searched(xs, view, query, fold);
    FilterImplies(s, x => Failing(view(x)), x => Unstable(view(x)));
  }

  /** The health comparator is a total preorder, so sorting by it is well defined. */
  lemma HealthOrderTotal<T(!new)>(view: T -> Entry)
    ensures TotalPreorder(HealthOrder(view))
  {
    var le := HealthOrder(view);
    forall a: T, b: T
      ensures le(a, b) || le(b, a)
    {
      LexTotal(view(a).name, view(b).name);
    }
    forall a: T, b: T, c: T | le(a, b) && le(b, c)
      ensures le(a, c)
    {
      if Failing(view(a)) == Failing(view(b)) == Failing(view(c)) {
        LexTransitive(view(a).name, view(b).name, view(c).name);
      }
    }
  }

  /** Sorting by health keeps the entries and puts every failing entry before every other
      one; within each of the two parts, names are in order. */
  lemma HealthSortFailingFirst<T(!new)>(xs: seq<T>, view: T -> Entry)
    ensures multiset(SortBy(xs, HealthOrder(view))) == multiset(xs)
    ensures var r := SortBy(xs, HealthOrder(view));
      forall i, j :: 0 <= i < j < |r| && Failing(view(r[j])) ==> Failing(view(r[i]))
    ensures var r := SortBy(xs, HealthOrder(view));
      forall i, j :: 0 <= i < j < |r| && Failing(view(r[i])) == Failing(view(r[j])) ==>
        LexLe(view(r[i]).name, view(r[j]).name)
  {
    HealthOrderTotal(view);
    SortBySorted(xs, HealthOrder(view));
    var r := SortBy(xs, HealthOrder(view));
    forall i, j | 0 <= i < j < |r|
      ensures HealthLe(view(r[i]), view(r[j]))
    {
      assert HealthOrder(view)(r[i], r[j]);
    }
  }

  /** `unhealthyCount` / `failingSuitesCount`: how many entries are failing. */
  function UnhealthyCount<T(==)>(xs: seq<T>, view: T -> Entry): nat
  {
    |Filter(xs, x => Failing(view(x)))|
  }

  /** The count is zero exactly when no entry is failing, and the length of the list exactly
      when every entry is; counts of two lists add up. */
  lemma UnhealthyCountMeaning<T>(xs: seq<T>, ys: seq<T>, view: T -> Entry)
    ensures UnhealthyCount(xs, view) <= |xs|
    ensures UnhealthyCount(xs, view) == 0 <==> forall i :: 0 <= i < |xs| ==> !Failing(view(xs[i]))
    ensures UnhealthyCount(xs, view) == |xs| <==> forall i :: 0 <= i < |xs| ==> Failing(view(xs[i]))
    ensures UnhealthyCount(xs + ys, view) == UnhealthyCount(xs, view) + UnhealthyCount(ys, view)
  {
    var p := x => Failing(view(x));
    FilterKeepsAllIff(xs, p);
    FilterAppend(xs, ys, p);
    if Filter(xs, p) != [] {
      assert Filter(xs, p)[0] in Filter(xs, p);
    }
  }

  /** The message of an empty dashboard. */
  function EmptyMessage(query: string, filter: string): string
  {
    if query != "" || filter != "none" then "Try adjusting your filters"
    else "No endpoints or suites are configured"
  }

  // ---- Grouping -------------------------------------------------------------------

  /** `group || 'No Group'`. */
  function GroupKey(g: string): string
  {
    if g == "" then NoGroup else g
  }

  function EndpointGroup(e: EndpointStatus): string { e.group }

  function SuiteGroup(s: SuiteStatus): string { s.group }

  /** The members of group `k`, in their original order. */
  function Members<T(==)>(xs: seq<T>, group: T -> string, k: string): seq<T>
  {
    if xs == [] then []
    else
      var last := xs[|xs| - 1];
      Members(xs[..|xs| - 1], group, k) + (if GroupKey(group(last)) == k then [last] else [])
  }

  /** The members of group `k` are exactly the entries whose key is `k`. */
  lemma {:induction false} MembersExactly<T>(xs: seq<T>, group: T -> string, k: string, x: T)
    ensures x in Members(xs, group, k) <==> x in xs && GroupKey(group(x)) == k
  {
    if xs != [] {
      var prefix := xs[..|xs| - 1];
      assert xs == prefix + [xs[|xs| - 1]];
      MembersExactly(prefix, group, k, x);
    }
  }

  /** The keys of the groups the entries fall into. */
  function KeysOf<T(==)>(xs: seq<T>, group: T -> string): set<string>
  {
    set x | x in xs :: GroupKey(group(x))
  }

  lemma {:induction false} MembersEmpty<T>(xs: seq<T>, group: T -> string, k: string)
    requires k !in KeysOf(xs, group)
    ensures Members(xs, group, k) == []
  {
    if xs != [] {
      var prefix := xs[..|xs| - 1];
      assert xs == prefix + [xs[|xs| - 1]];
      KeysOfSnoc(prefix, xs[|xs| - 1], group);
      MembersEmpty(prefix, group, k);
    }
  }

  lemma MembersSnoc<T>(xs: seq<T>, x: T, group: T -> string, k: string)
    ensures Members(xs + [x], group, k) ==
      Members(xs, group, k) + (if GroupKey(group(x)) == k then [x] else [])
  {
    assert (xs + [x])[..|xs|] == xs;
  }

  lemma KeysOfSnoc<T>(xs: seq<T>, x: T, group: T -> string)
    ensures KeysOf(xs + [x], group) == KeysOf(xs, group) + {GroupKey(group(x))}
  {
    forall y | y in xs + [x]
      ensures y in xs || y == x
    {
    }
  }

  /** The order of the group headings: 'No Group' after every other key, the rest by name. */
  predicate GroupLe(a: string, b: string)
  {
    if a == NoGroup then b == NoGroup else b == NoGroup || LexLe(a, b)
  }

  lemma GroupLeTotal()
    ensures TotalPreorder(GroupLe)
  {
    forall a, b
      ensures GroupLe(a, b) || GroupLe(b, a)
    {
      LexTotal(a, b);
    }
    forall a, b, c | GroupLe(a, b) && GroupLe(b, c)
      ensures GroupLe(a, c)
    {
      if a != NoGroup && b != NoGroup && c != NoGroup {
        LexTransitive(a, b, c);
      }
    }
  }

  datatype Group = Group(key: string, endpoints: seq<EndpointStatus>, suites: seq<SuiteStatus>)

  /**
   * What `combinedGroups` promises: each group holds exactly the listed endpoints and suites
   * of its key, in list order; the keys are distinct and ordered by `GroupLe`; and they are
   * exactly the keys of the listed endpoints and suites.
   */
  ghost predicate GroupedCorrectly(eps: seq<EndpointStatus>, ss: seq<SuiteStatus>, gs: seq<Group>)
  {
    && (forall i :: 0 <= i < |gs| ==>
          gs[i].endpoints == Members(eps, EndpointGroup, gs[i].key)
          && gs[i].suites == Members(ss, SuiteGroup, gs[i].key))
    && (forall i, j :: 0 <= i < j < |gs| ==> gs[i].key != gs[j].key && GroupLe(gs[i].key, gs[j].key))
    && (forall k :: k in KeysOf(eps, EndpointGroup) + KeysOf(ss, SuiteGroup) <==>
          exists i :: 0 <= i < |gs| && gs[i].key == k)
  }

  /** The keys of the group table partway through `combinedGroups`: `order` lists them
      once each, in the order they were created, and they are the keys `keys`. */
  ghost predicate TableKeys(groups: map<string, Group>, order: seq<string>, keys: set<string>)
  {
    && Distinct(order)
    && (forall k :: k in groups <==> k in order)
    && groups.Keys == keys
  }

  /** Each group of the table holds the members of its key among `eps` and `ss`. */
  ghost predicate TableContents(groups: map<string, Group>, eps: seq<EndpointStatus>, ss: seq<SuiteStatus>)
  {
    forall k :: k in groups ==>
      groups[k] == Group(k, Members(eps, EndpointGroup, k), Members(ss, SuiteGroup, k))
  }

  ghost predicate TableHolds(groups: map<string, Group>, order: seq<string>,
                             eps: seq<EndpointStatus>, ss: seq<SuiteStatus>)
  {
    TableKeys(groups, order, KeysOf(eps, EndpointGroup) + KeysOf(ss, SuiteGroup))
    && TableContents(groups, eps, ss)
  }

  /** Creating the group of key `g` when it is missing, then updating it, adds `g` to the
      keys and lists it last if it is new. */
  lemma KeysStep(groups: map<string, Group>, order: seq<string>, keys: set<string>, g: string,
                 groups1: map<string, Group>, order1: seq<string>, v: Group)
    requires TableKeys(groups, order, keys)
    requires g in groups ==> groups1 == groups && order1 == order
    requires g !in groups ==> groups1 == groups[g := Group(g, [], [])] && order1 == order + [g]
    ensures TableKeys(groups1[g := v], order1, keys + {g})
  {
  }

  /** One push of the first loop: the group of `e`'s key is created if missing (`groups1`),
      then `e` is appended to it. */
  lemma EndpointStep(groups: map<string, Group>, groups1: map<string, Group>, eps: seq<EndpointStatus>,
                     e: EndpointStatus)
    requires TableContents(groups, eps, [])
    requires var g := GroupKey(e.group);
      && (g !in groups ==> g !in KeysOf(eps, EndpointGroup))
      && (g in groups ==> groups1 == groups)
      && (g !in groups ==> groups1 == groups[g := Group(g, [], [])])
    ensures var g := GroupKey(e.group);
      TableContents(groups1[g := groups1[g].(endpoints := groups1[g].endpoints + [e])], eps + [e], [])
  {
    var g := GroupKey(e.group);
    if g !in groups {
      MembersEmpty(eps, EndpointGroup, g);
    }
    var groups2 := groups1[g := groups1[g].(endpoints := groups1[g].endpoints + [e])];
    forall k | k in groups2
      ensures groups2[k] == Group(k, Members(eps + [e], EndpointGroup, k), Members([], SuiteGroup, k))
    {
      MembersSnoc(eps, e, EndpointGroup, k);
    }
  }

  /** One push of the second loop, for suite `s`. */
  lemma SuiteStep(groups: map<string, Group>, groups1: map<string, Group>, eps: seq<EndpointStatus>,
                  ss: seq<SuiteStatus>, s: SuiteStatus)
    requires TableContents(groups, eps, ss)
    requires var g := GroupKey(s.group);
      && (g !in groups ==> g !in KeysOf(eps, EndpointGroup) && g !in KeysOf(ss, SuiteGroup))
      && (g in groups ==> groups1 == groups)
      && (g !in groups ==> groups1 == groups[g := Group(g, [], [])])
    ensures var g := GroupKey(s.group);
      TableContents(groups1[g := groups1[g].(suites := groups1[g].suites + [s])], eps, ss + [s])
  {
    var g := GroupKey(s.group);
    if g !in groups {
      MembersEmpty(eps, EndpointGroup, g);
      MembersEmpty(ss, SuiteGroup, g);
    }
    var groups2 := groups1[g := groups1[g].(suites := groups1[g].suites + [s])];
    forall k | k in groups2
      ensures groups2[k] == Group(k, Members(eps, EndpointGroup, k), Members(ss + [s], SuiteGroup, k))
    {
      MembersSnoc(ss, s, SuiteGroup, k);
    }
  }

  /** The first loop of `combinedGroups`: each endpoint is pushed into the group of its key,
      created on first use. */
  method TableOfEndpoints(eps: seq<EndpointStatus>) returns (groups: map<string, Group>, order: seq<string>)
    ensures TableHolds(groups, order, eps, [])
  {
    groups, order := map[], [];
    assert KeysOf([], SuiteGroup) == {};
    for i := 0 to |eps|
      invariant TableKeys(groups, order, KeysOf(eps[..i], EndpointGroup))
      invariant TableContents(groups, eps[..i], [])
    {
      var g := GroupKey(eps[i].group);
      var groupsBefore, orderBefore := groups, order;
      if g !in groups {
        groups := groups[g := Group(g, [], [])];
        order := order + [g];
      }
      var next := groups[g].(endpoints := groups[g].endpoints + [eps[i]]);
      KeysStep(groupsBefore, orderBefore, KeysOf(eps[..i], EndpointGroup), g, groups, order, next);
      EndpointStep(groupsBefore, groups, eps[..i], eps[i]);
      groups := groups[g := next];
      assert eps[..i + 1] == eps[..i] + [eps[i]];
      KeysOfSnoc(eps[..i], eps[i], EndpointGroup);
    }
    assert eps[..|eps|] == eps;
  }

  /** The second loop: each suite is pushed into the group of its key, created on first use. */
  method AddSuites(groups0: map<string, Group>, order0: seq<string>, eps: seq<EndpointStatus>, ss: seq<SuiteStatus>)
    returns (groups: map<string, Group>, order: seq<string>)
    requires TableHolds(groups0, order0, eps, [])
    ensures TableHolds(groups, order, eps, ss)
  {
    groups, order := groups0, order0;
    assert ss[..0] == [];
    for i := 0 to |ss|
      invariant TableKeys(groups, order, KeysOf(eps, EndpointGroup) + KeysOf(ss[..i], SuiteGroup))
      invariant TableContents(groups, eps, ss[..i])
    {
      var g := GroupKey(ss[i].group);
      var groupsBefore, orderBefore := groups, order;
      if g !in groups {
        groups := groups[g := Group(g, [], [])];
        order := order + [g];
      }
      var next := groups[g].(suites := groups[g].suites + [ss[i]]);
      assert ss[..i + 1] == ss[..i] + [ss[i]];
      KeysOfSnoc(ss[..i], ss[i], SuiteGroup);
      ghost var keys := KeysOf(eps, EndpointGroup) + KeysOf(ss[..i], SuiteGroup);
      assert keys + {g} == KeysOf(eps, EndpointGroup) + KeysOf(ss[..i + 1], SuiteGroup);
      KeysStep(groupsBefore, orderBefore, keys, g, groups, order, next);
      SuiteStep(groupsBefore, groups, eps, ss[..i], ss[i]);
      groups := groups[g := next];
    }
    assert ss[..|ss|] == ss;
  }

  /** Sorting distinct keys by `GroupLe` keeps them distinct, keeps the same keys, and
      orders them. */
  lemma SortedKeys(order: seq<string>)
    requires Distinct(order)
    ensures var sorted := SortBy(order, GroupLe);
      && Distinct(sorted)
      && (forall i, j :: 0 <= i < j < |sorted| ==> GroupLe(sorted[i], sorted[j]))
      && (forall k :: k in sorted <==> k in order)
  {
    var sorted := SortBy(order, GroupLe);
    GroupLeTotal();
    SortBySorted(order, GroupLe);
    DistinctByMultiset(sorted, order);
    forall k
      ensures k in sorted <==> k in order
    {
      assert k in sorted <==> k in multiset(sorted);
      assert k in order <==> k in multiset(order);
    }
  }

  /** Listing the table's groups in the order of distinct, sorted keys that are exactly the
      table's keys gives a correct grouping. */
  lemma ListedCorrectly(groups: map<string, Group>, order: seq<string>, eps: seq<EndpointStatus>,
                        ss: seq<SuiteStatus>, sorted: seq<string>, result: seq<Group>)
    requires TableHolds(groups, order, eps, ss)
    requires Distinct(sorted) && (forall k :: k in sorted <==> k in order)
    requires forall i, j :: 0 <= i < j < |sorted| ==> GroupLe(sorted[i], sorted[j])
    requires |result| == |sorted|
    requires forall m :: 0 <= m < |sorted| ==> sorted[m] in groups && result[m] == groups[sorted[m]]
    ensures GroupedCorrectly(eps, ss, result)
  {
    forall k
      ensures k in groups <==> exists i :: 0 <= i < |result| && result[i].key == k
    {
      if k in groups {
        var i :| 0 <= i < |sorted| && sorted[i] == k;
        assert result[i].key == k;
      }
    }
  }

  /** The keys sorted by `GroupLe`, and the groups listed in that order. */
  method ListSorted(groups: map<string, Group>, order: seq<string>, eps: seq<EndpointStatus>, ss: seq<SuiteStatus>)
    returns (result: seq<Group>)
    requires TableHolds(groups, order, eps, ss)
    ensures GroupedCorrectly(eps, ss, result)
  {
    var sorted := SortBy(order, GroupLe);
    SortedKeys(order);
    result := [];
    for j := 0 to |sorted|
      invariant |result| == j
      invariant forall m :: 0 <= m < j ==> sorted[m] in groups && result[m] == groups[sorted[m]]
    {
      assert sorted[j] in sorted;
      result := result + [groups[sorted[j]]];
    }
    ListedCorrectly(groups, order, eps, ss, sorted, result);
  }

  /**
   * `combinedGroups`: the endpoints, then the suites, are pushed into the group of their key
   * (created on first use); the keys are sorted and the groups listed in that order.
   */
  method CombineGroups(eps: seq<EndpointStatus>, ss: seq<SuiteStatus>) returns (result: seq<Group>)
    ensures GroupedCorrectly(eps, ss, result)
  {
    var groups, order := TableOfEndpoints(eps);
    groups, order := AddSuites(groups, order, eps, ss);
    result := ListSorted(groups, order, eps, ss);
  }

  /** Every listed endpoint is in exactly one group: the one its key names. */
  lemma EndpointInOneGroup(eps: seq<EndpointStatus>, ss: seq<SuiteStatus>, gs: seq<Group>, e: EndpointStatus)
    requires GroupedCorrectly(eps, ss, gs) && e in eps
    ensures exists i :: 0 <= i < |gs| && gs[i].key == GroupKey(e.group) && e in gs[i].endpoints
    ensures forall i :: 0 <= i < |gs| && e in gs[i].endpoints ==> gs[i].key == GroupKey(e.group)
  {
    assert GroupKey(EndpointGroup(e)) in KeysOf(eps, EndpointGroup) + KeysOf(ss, SuiteGroup);
    var i :| 0 <= i < |gs| && gs[i].key == GroupKey(e.group);
    MembersExactly(eps, EndpointGroup, gs[i].key, e);
    forall j | 0 <= j < |gs| && e in gs[j].endpoints
      ensures gs[j].key == GroupKey(e.group)
    {
      MembersExactly(eps, EndpointGroup, gs[j].key, e);
    }
  }

  /** Every listed suite is in exactly one group: the one its key names. */
  lemma SuiteInOneGroup(eps: seq<EndpointStatus>, ss: seq<SuiteStatus>, gs: seq<Group>, s: SuiteStatus)
    requires GroupedCorrectly(eps, ss, gs) && s in ss
    ensures exists i :: 0 <= i < |gs| && gs[i].key == GroupKey(s.group) && s in gs[i].suites
    ensures forall i :: 0 <= i < |gs| && s in gs[i].suites ==> gs[i].key == GroupKey(s.group)
  {
    assert GroupKey(SuiteGroup(s)) in KeysOf(eps, EndpointGroup) + KeysOf(ss, SuiteGroup);
    var i :| 0 <= i < |gs| && gs[i].key == GroupKey(s.group);
    MembersExactly(ss, SuiteGroup, gs[i].key, s);
    forall j | 0 <= j < |gs| && s in gs[j].suites
      ensures gs[j].key == GroupKey(s.group)
    {
      MembersExactly(ss, SuiteGroup, gs[j].key, s);
    }
  }

  /** 'No Group', when present, is the last heading; the named groups before it are in
      name order. */
  lemma NoGroupLast(eps: seq<EndpointStatus>, ss: seq<SuiteStatus>, gs: seq<Group>)
    requires GroupedCorrectly(eps, ss, gs)
    ensures forall i :: 0 <= i < |gs| && gs[i].key == NoGroup ==> i == |gs| - 1
    ensures forall i, j :: 0 <= i < j < |gs| && gs[j].key != NoGroup ==> LexLe(gs[i].key, gs[j].key)
  {
    forall i | 0 <= i < |gs| - 1
      ensures gs[i].key != NoGroup
    {
      assert GroupLe(gs[i].key, gs[|gs| - 1].key);
    }
  }

  /** The count on a group's heading: its failing endpoints plus its failing suites. */
  function Badge(g: Group): nat
  {
    UnhealthyCount(g.endpoints, EndpointEntry) + UnhealthyCount(g.suites, SuiteEntry)
  }

  /** The heading shows a count exactly when the group holds a failing endpoint or suite
      (otherwise a check mark). */
  lemma BadgeShown(g: Group)
    ensures Badge(g) > 0 <==>
      (exists e :: e in g.endpoints && Failing(EndpointEntry(e))) ||
      (exists s :: s in g.suites && Failing(SuiteEntry(s)))
  {
    UnhealthyCountMeaning(g.endpoints, [], EndpointEntry);
    UnhealthyCountMeaning(g.suites, [], SuiteEntry);
  }

  // ---- Object record lookup, as written ----------------------------------------------

  /** The names a plain object literal answers through `Object.prototype`. */
  const PrototypeNames: set<string> := {
    "constructor", "__proto__", "hasOwnProperty", "isPrototypeOf", "propertyIsEnumerable",
    "toLocaleString", "toString", "valueOf",
    "__defineGetter__", "__defineSetter__", "__lookupGetter__", "__lookupSetter__"}

  /**
   * `groups[g]` once `if (!groups[g]) groups[g] = {...}` has run, on the object literal the
   * source uses: an own group, a fresh one, or `None` where an inherited member answers.
   * That member is truthy, so no group is created, and has no `endpoints` or `suites`
   * array, so the push that follows throws a TypeError.
   */
  function GroupSlotAsWritten(groups: map<string, Group>, g: string): (slot: Option<Group>)
    ensures g in groups ==> slot == Some(groups[g])
    ensures g !in groups && g !in PrototypeNames ==> slot == Some(Group(g, [], []))
    ensures slot.None? <==> g !in groups && g in PrototypeNames
  {
    if g in groups then Some(groups[g])
    else if g in PrototypeNames then None
    else Some(Group(g, [], []))
  }

  /** An endpoint whose group is named like an `Object.prototype` member stops the grouping
      at its first push, while `CombineGroups` places it in a group of that name. */
  lemma PrototypeGroupNameThrows(e: EndpointStatus)
    requires e.group in PrototypeNames
    ensures GroupSlotAsWritten(map[], GroupKey(e.group)).None?
    ensures forall gs: seq<Group> :: GroupedCorrectly([e], [], gs) ==>
      |gs| > 0 && forall j :: 0 <= j < |gs| ==> gs[j] == Group(e.group, [e], [])
  {
    assert e.group != "";
    KeysOfSnoc([], e, EndpointGroup);
    assert [] + [e] == [e];
    assert KeysOf([], EndpointGroup) == {} && KeysOf([], SuiteGroup) == {};
    assert KeysOf([e], EndpointGroup) + KeysOf([], SuiteGroup) == {e.group};
    assert [e][..0] == [];
    assert Members([e], EndpointGroup, e.group) == [e];
    forall gs: seq<Group> | GroupedCorrectly([e], [], gs)
      ensures |gs| > 0
      ensures forall j :: 0 <= j < |gs| ==> gs[j] == Group(e.group, [e], [])
    {
      EndpointInOneGroup([e], [], gs, e);
      forall j | 0 <= j < |gs|
        ensures gs[j] == Group(e.group, [e], [])
      {
        assert gs[j].key in KeysOf([e], EndpointGroup) + KeysOf([], SuiteGroup);
      }
    }
  }

  // ---- Expanded groups and announcements ---------------------------------------------

  /** `toggleGroup(g)` on the set of expanded groups. */
  function Toggled(s: set<string>, g: string): (r: set<string>)
    ensures g in r <==> g !in s
    ensures forall h :: h != g ==> (h in r <==> h in s)
  {
    if g in s then s - {g} else s + {g}
  }

  lemma ToggleTwice(s: set<string>, g: string)
    ensures Toggled(Toggled(s, g), g) == s
  {
  }

  predicate IsArchived(a: Announcement)
  {
    a.archived == Some(true)
  }

  predicate IsActive(a: Announcement)
  {
    !IsArchived(a)
  }

  /** The banner's announcements and the past ones: each announcement is in exactly one
      of the two, and together they account for all of them. */
  lemma AnnouncementsSplit(anns: Option<seq<Announcement>>, a: Announcement)
    ensures var all := anns.GetOr([]);
      |Filter(all, IsActive)| + |Filter(all, IsArchived)| == |all|
    ensures a in anns.GetOr([]) ==>
      (a in Filter(anns.GetOr([]), IsActive) <==> a !in Filter(anns.GetOr([]), IsArchived))
  {
    FilterPartition(anns.GetOr([]), IsArchived, IsActive);
  }

  /** The dashboard's own state. */
  class DashboardView {
    const fold: string -> string
    var endpoints: seq<EndpointStatus>
    var suites: seq<SuiteStatus>
    var loading: bool
    var searchQuery: string
    var filter: string
    var sortBy: string
    var showAvgResponseTime: bool
    var expanded: set<string>

    constructor(fold: string -> string)
      ensures this.fold == fold
      ensures endpoints == [] && suites == [] && !loading
      ensures searchQuery == "" && filter == "none" && sortBy == "name"
      ensures showAvgResponseTime && expanded == {}
    {
      this.fold := fold;
      endpoints, suites, loading := [], [], false;
      searchQuery, filter, sortBy := "", "none", "name";
      showAvgResponseTime, expanded := true, {};
    }

    function FilteredEndpoints(): seq<EndpointStatus>
      reads this
    {
      Visible(endpoints, EndpointEntry, searchQuery, filter, sortBy, fold)
    }

    function FilteredSuites(): seq<SuiteStatus>
      reads this
    {
      Visible(suites, SuiteEntry, searchQuery, filter, sortBy, fold)
    }

    /** The "nothing found" message, shown once loading is over and both lists are empty. */
    function NothingFound(): Option<string>
      reads this
    {
      if !loading && FilteredEndpoints() == [] && FilteredSuites() == [] then
        Some(EmptyMessage(searchQuery, filter))
      else None
    }

    /** The groups or cards are on screen: loading is over and something passes the filters. */
    predicate ListShown()
      reads this
    {
      !loading && (FilteredEndpoints() != [] || FilteredSuites() != [])
    }

    /** The start of `fetchData`: the spinner shows only for the first load. */
    method BeginFetch() returns (isInitial: bool)
      modifies this
      ensures isInitial <==> old(endpoints) == [] && old(suites) == []
      ensures loading == (isInitial || old(loading))
      ensures endpoints == old(endpoints) && suites == old(suites)
      ensures unchanged(this`searchQuery, this`filter, this`sortBy, this`showAvgResponseTime, this`expanded)
    {
      isInitial := endpoints == [] && suites == [];
      if isInitial {
        loading := true;
      }
    }

    /** The start of `fetchData` as written: the callback is memoised with no
        dependencies, so it keeps reading the lists of the first render, which are empty,
        and every call (the settings timer's included) counts as the first load. */
    method BeginFetchAsWritten() returns (isInitial: bool)
      modifies this
      ensures isInitial && loading
      ensures endpoints == old(endpoints) && suites == old(suites)
      ensures unchanged(this`searchQuery, this`filter, this`sortBy, this`showAvgResponseTime, this`expanded)
    {
      isInitial := true;
      loading := true;
    }

    /** The end of `fetchData`: each list is replaced only by a fetch that succeeded (a
        `null` suite list counts as empty); a rejected fetch keeps the old list. */
    method FetchSettled(isInitial: bool, endpointData: Option<seq<EndpointStatus>>,
                        suiteData: Option<Option<seq<SuiteStatus>>>)
      modifies this
      ensures endpoints == endpointData.GetOr(old(endpoints))
      ensures suites == (if suiteData.Some? then suiteData.value.GetOr([]) else old(suites))
      ensures loading == (!isInitial && old(loading))
      ensures unchanged(this`searchQuery, this`filter, this`sortBy, this`showAvgResponseTime, this`expanded)
    {
      if endpointData.Some? {
        endpoints := endpointData.value;
      }
      if suiteData.Some? {
        suites := suiteData.value.GetOr([]);
      }
      if isInitial {
        loading := false;
      }
    }

    /** `refreshData`: empty both lists, so the fetch that follows is a first load. */
    method RefreshData() returns (isInitial: bool)
      modifies this
      ensures isInitial && loading && endpoints == [] && suites == []
      ensures unchanged(this`searchQuery, this`filter, this`sortBy, this`showAvgResponseTime, this`expanded)
    {
      endpoints, suites := [], [];
      isInitial := BeginFetch();
    }

    /** The mount effect: the stored preference (`None` when nothing is stored), and the
        stored expanded groups, `saved` being the parsed list when a non-empty stored
        value parses as one and `None` otherwise (a failed parse is ignored). */
    method LoadPreferences(stored: Option<string>, saved: Option<seq<string>>)
      modifies this`showAvgResponseTime, this`expanded
      ensures showAvgResponseTime == ShowAverageFrom(stored)
      ensures saved.Some? ==> forall g :: g in expanded <==> g in saved.value
      ensures saved.None? ==> expanded == old(expanded)
    {
      showAvgResponseTime := stored != Some("false");
      if saved.Some? {
        expanded := set g | g in saved.value;
      }
    }

    /** `toggleGroup(g)`; `saved` is the set of groups it writes back to storage. */
    method ToggleGroup(g: string) returns (saved: set<string>)
      modifies this`expanded
      ensures expanded == Toggled(old(expanded), g)
      ensures saved == expanded
    {
      var next := expanded;
      if g in next {
        next := next - {g};
      } else {
        next := next + {g};
      }
      expanded := next;
      saved := next;
    }

    /** `toggleResponseTimeDisplay`: flip the preference; `stored` is what it writes under
        `ShowAverageKey`. */
    method ToggleResponseTimeDisplay() returns (stored: string)
      modifies this`showAvgResponseTime
      ensures showAvgResponseTime == !old(showAvgResponseTime)
      ensures stored == StoredFlag(showAvgResponseTime)
    {
      showAvgResponseTime := !showAvgResponseTime;
      stored := if showAvgResponseTime then "true" else "false";
    }

    /** `combinedGroups`: the grouped lists when sorting by group, otherwise none. */
    method CombinedGroups() returns (groups: Option<seq<Group>>)
      ensures groups.Some? <==> sortBy == GroupSort
      ensures groups.Some? ==> GroupedCorrectly(FilteredEndpoints(), FilteredSuites(), groups.value)
    {
      if sortBy != GroupSort {
        return None;
      }
      var gs := CombineGroups(FilteredEndpoints(), FilteredSuites());
      groups := Some(gs);
    }
  }

  /** The empty dashboard's message is honest: 'No endpoints or suites are configured'
      appears only when both lists really are empty, and 'Try adjusting your filters'
      only when a query or a filter is set. */
  lemma NothingFoundMeaning(v: DashboardView)
    ensures v.NothingFound() == Some("No endpoints or suites are configured") ==>
      v.endpoints == [] && v.suites == []
    ensures v.NothingFound() == Some("Try adjusting your filters") ==>
      v.searchQuery != "" || v.filter != "none"
  {
    if v.NothingFound() == Some("No endpoints or suites are configured") {
      assert "No endpoints or suites are configured" != "Try adjusting your filters" by {
        assert "No endpoints or suites are configured"[0] == 'N';
      }
      UnfilteredShowsAll(v.endpoints, EndpointEntry, v.filter, v.sortBy, v.fold);
      UnfilteredShowsAll(v.suites, SuiteEntry, v.filter, v.sortBy, v.fold);
    }
  }

  /** The settings timer's refresh of a dashboard that already lists an endpoint: as
      written the spinner replaces the list until the fetch settles; with the intended
      first-load test the list stays on screen. */
  method TimerRefreshAsWritten(fold: string -> string, e: EndpointStatus)
    returns (shownAsWritten: bool, shownAsIntended: bool)
    ensures !shownAsWritten && shownAsIntended
  {
    var v := new DashboardView(fold);
    var first := v.BeginFetch();
    v.FetchSettled(first, Some([e]), None);
    var again := v.BeginFetch();
    UnfilteredShowsAll(v.endpoints, EndpointEntry, v.filter, v.sortBy, v.fold);
    shownAsIntended := v.ListShown();
    v.FetchSettled(again, None, None);
    again := v.BeginFetchAsWritten();
    shownAsWritten := v.ListShown();
  }
}
