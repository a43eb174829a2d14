/**
 * RouteAdapter: the list of routes on the routes screen. Each row shows a
 * route's title, fare and summary, and a "pill" naming the route variant
 * found in its title.
 */
module RouteAdapter {
  import opened KotlinText

  /** A route as the list shows it. */
  datatype Route = Route(id: int, title: string, fareText: string, summary: string, stops: int)

  /**
   * The variant pill for a title: "(A)", "(B)" and "(C)" are looked for in
   * that order, ignoring case, and a title with none of them gets "Route".
   */
  function PillLabel(title: string): (pill: string)
    ensures pill in ["Route A", "Route B", "Route C", "Route"]
  {
    if ContainsIgnoreCase(title, "(A)") then "Route A"
    else if ContainsIgnoreCase(title, "(B)") then "Route B"
    else if ContainsIgnoreCase(title, "(C)") then "Route C"
    else "Route"
  }

  /** Two strings that agree letter for letter up to ASCII case. */
  predicate SameIgnoringCase(s: string, t: string) {
    |s| == |t| && forall i :: 0 <= i < |s| ==> CharEqualsIgnoreCase(s[i], t[i])
  }

  lemma {:induction false} ContainsIgnoringCase(s: string, t: string, pat: string)
    requires SameIgnoringCase(s, t)
    ensures ContainsIgnoreCase(s, pat) <==> ContainsIgnoreCase(t, pat)
    decreases |s|
  {
    if |pat| <= |s| {
      assert MatchesAt(s, pat, 0) <==> MatchesAt(t, pat, 0) by {
        assert forall j :: 0 <= j < |pat| ==> UpperAscii(s[j]) == UpperAscii(t[j]);
      }
    }
    if s != [] {
      ContainsIgnoringCase(s[1..], t[1..], pat);
    }
  }

  /** The pill does not depend on the case of the title's letters. */
  lemma PillIgnoresCase(s: string, t: string)
    requires SameIgnoringCase(s, t)
    ensures PillLabel(s) == PillLabel(t)
  {
    ContainsIgnoringCase(s, t, "(A)");
    ContainsIgnoringCase(s, t, "(B)");
    ContainsIgnoringCase(s, t, "(C)");
  }

  /** A title holding the tag at some offset contains it. */
  lemma TagContained(title: string, tag: string, i: nat)
    requires i + |tag| <= |title| && MatchesAt(title, tag, i)
    ensures ContainsIgnoreCase(title, tag)
  {
    ContainsIgnoreCaseIff(title, tag);
  }

  /** Any title with an "(A)" or "(a)" in it is variant A, whatever else it holds. */
  lemma VariantA(prefix: string, c: char, suffix: string)
    requires UpperAscii(c) == 'A'
    ensures PillLabel(prefix + ['(', c, ')'] + suffix) == "Route A"
  {
    var title := prefix + ['(', c, ')'] + suffix;
    assert title[|prefix|..|prefix| + 3] == ['(', c, ')'];
    TagContained(title, "(A)", |prefix|);
  }

  /** A title with "(B)" or "(b)" in it and no A tag is variant B. */
  lemma VariantB(prefix: string, c: char, suffix: string)
    requires UpperAscii(c) == 'B'
    requires !ContainsIgnoreCase(prefix + ['(', c, ')'] + suffix, "(A)")
    ensures PillLabel(prefix + ['(', c, ')'] + suffix) == "Route B"
  {
    var title := prefix + ['(', c, ')'] + suffix;
    assert title[|prefix|..|prefix| + 3] == ['(', c, ')'];
    TagContained(title, "(B)", |prefix|);
  }

  /** A title is labelled plain "Route" exactly when no tag matches anywhere in it. */
  lemma PlainRoute(title: string)
    ensures PillLabel(title) == "Route" <==>
      forall tag, i :: tag in ["(A)", "(B)", "(C)"] && 0 <= i && i + 3 <= |title| ==> !MatchesAt(title, tag, i)
  {
    ContainsIgnoreCaseIff(title, "(A)");
    ContainsIgnoreCaseIff(title, "(B)");
    ContainsIgnoreCaseIff(title, "(C)");
  }

  /** What a bound row shows, and the route a click on it hands on. */
  datatype RowBinding = RowBinding(title: string, fare: string, summary: string, category: string, clicked: Route)

  /** The list adapter (`RouteAdapter`), holding the routes it shows. */
  class RouteListAdapter {
    var routes: seq<Route>

    constructor (routes: seq<Route>)
      ensures this.routes == routes
    {
      this.routes := routes;
    }

    /** `getItemCount`: one row per route. */
    function GetItemCount(): (n: nat)
      reads this
    {
      |routes|
    }

    /** `updateRoutes`: the new list replaces the old one wholesale. */
    method UpdateRoutes(newRoutes: seq<Route>)
      modifies this
      ensures routes == newRoutes && GetItemCount() == |newRoutes|
    {
      routes := newRoutes;
    }

    /**
     * `onBindViewHolder`: the row at `position` shows that route's title,
     * fare and summary and its variant pill, and a click on it passes on
     * that route.
     */
    method OnBindViewHolder(position: int) returns (row: RowBinding)
      requires 0 <= position < GetItemCount()
      ensures var route := routes[position];
        && row.title == route.title && row.fare == route.fareText && row.summary == route.summary
        && row.category == PillLabel(route.title) && row.clicked == route
    {
      var route := routes[position];
      var category := PillLabel(route.title);
      row := RowBinding(route.title, route.fareText, route.summary, category, route);
    }
  }
}
