/** The routes table: the mode lookup and one row per Route element. */
module Routes {
  import opened Results
  import opened Text
  import opened Records

  /** `get_mode`: the GTFS route type of a TransXChange mode, None for a mode
      outside the table (the function falls off its end). */
  function Mode(mode: string): (r: Option<int>)
    ensures r == Some(0) <==> mode == "tram" || mode == "trolleyBus"
    ensures r == Some(1) <==> mode == "underground" || mode == "metro"
    ensures r == Some(2) <==> mode == "rail"
    ensures r == Some(3) <==> mode == "bus" || mode == "coach"
    ensures r == Some(4) <==> mode == "ferry"
    ensures r.Some? ==> 0 <= r.value <= 4
  {
    if mode == "tram" || mode == "trolleyBus" then Some(0)
    else if mode == "underground" || mode == "metro" then Some(1)
    else if mode == "rail" then Some(2)
    else if mode == "bus" || mode == "coach" then Some(3)
    else if mode == "ferry" then Some(4)
    else None
  }

  /** The TransXChange modes the table knows. */
  predicate KnownMode(mode: string) {
    mode in ["tram", "trolleyBus", "underground", "metro", "rail", "bus", "coach", "ferry"]
  }

  /** `get_route_type`: the mode of the document's single Service. With other
      than one Service element, `Services.Service.Mode` is an attribute error. */
  function RouteType(doc: Document): (r: Result<Option<int>>)
    ensures r.Err? <==> |doc.services| != 1
    ensures r.Ok? ==> r.value == Mode(doc.services[0].mode)
  {
    if |doc.services| != 1 then Err(AttributeError) else Ok(Mode(doc.services[0].mode))
  }

  /** A row of routes.txt. */
  datatype RouteRow = RouteRow(routeId: string, agencyId: string, shortName: string, longName: string, routeType: int)

  /** The separator that ends a route's short name inside its PrivateCode. */
  const ShortNameSeparator: string := "-_-"

  /** The route short name: the PrivateCode up to its first `-_-`. */
  function ShortName(privateCode: string): string {
    Split(privateCode, ShortNameSeparator)[0]
  }

  /** The agency of a route: that of the first gtfs_info row of the route;
      with no such row, `unique()[0]` is an index error. */
  function AgencyOf(gtfsInfo: seq<InfoRow>, routeId: string): (r: Result<string>)
    ensures r.Err? <==> forall i :: 0 <= i < |gtfsInfo| ==> gtfsInfo[i].trip.routeId != routeId
    ensures r.Err? ==> r.error == IndexError
    ensures r.Ok? ==> exists i ::
      && 0 <= i < |gtfsInfo|
      && gtfsInfo[i].trip.routeId == routeId
      && gtfsInfo[i].trip.agencyId == r.value
      && forall j :: 0 <= j < i ==> gtfsInfo[j].trip.routeId != routeId
    decreases |gtfsInfo|
  {
    if |gtfsInfo| == 0 then Err(IndexError)
    else if gtfsInfo[0].trip.routeId == routeId then Ok(gtfsInfo[0].trip.agencyId)
    else
      var rest := AgencyOf(gtfsInfo[1..], routeId);
      assert forall i :: 1 <= i < |gtfsInfo| ==> gtfsInfo[i] == gtfsInfo[1..][i - 1];
      if rest.Ok? then
        var i :| 0 <= i < |gtfsInfo[1..]| && gtfsInfo[1..][i].trip.routeId == routeId &&
          gtfsInfo[1..][i].trip.agencyId == rest.value &&
          forall j :: 0 <= j < i ==> gtfsInfo[1..][j].trip.routeId != routeId;
        assert forall j :: 0 <= j < i + 1 ==> gtfsInfo[j].trip.routeId != routeId by {
          forall j | 0 <= j < i + 1 ensures gtfsInfo[j].trip.routeId != routeId {
            if j > 0 { assert gtfsInfo[j] == gtfsInfo[1..][j - 1]; }
          }
        }
        rest
      else
        rest
  }

  /** What `get_routes` builds, route by route, before the type conversion:
      route id, agency, short and long name, and route type. */
  function RouteEntries(gtfsInfo: seq<InfoRow>, doc: Document, routes: seq<Route>): Result<seq<(RouteRow, Option<int>)>>
    decreases |routes|
  {
    if |routes| == 0 then Ok([])
    else
      var r := routes[0];
      match AgencyOf(gtfsInfo, r.id)
      case Err(e) => Err(e)
      case Ok(agency) =>
        match RouteType(doc)
        case Err(e) => Err(e)
        case Ok(routeType) =>
          var entry := (RouteRow(r.id, agency, ShortName(r.privateCode), r.description, 0), routeType);
          Prepend([entry], RouteEntries(gtfsInfo, doc, routes[1..]))
  }

  /** `get_routes`: a document without Route elements fails the attribute
      lookup that starts the loop; a mode outside the table leaves None,
      which does not convert to int. */
  function RoutesOf(gtfsInfo: seq<InfoRow>, doc: Document): Result<seq<RouteRow>> {
    if |doc.routes| == 0 then Err(AttributeError)
    else
      match RouteEntries(gtfsInfo, doc, doc.routes)
      case Err(e) => Err(e)
      case Ok(entries) =>
        RouteEntriesShape(gtfsInfo, doc, doc.routes);
        match entries[0].1
        case None => Err(TypeError)
        case Some(t) => Ok(seq(|entries|, i requires 0 <= i < |entries| => entries[i].0.(routeType := t)))
  }

  /** The loop of `get_routes` over the Route elements. */
  method GetRoutes(gtfsInfo: seq<InfoRow>, doc: Document) returns (r: Result<seq<RouteRow>>)
    ensures r == RoutesOf(gtfsInfo, doc)
  {
    if |doc.routes| == 0 {
      return Err(AttributeError);
    }
    var routes: seq<(RouteRow, Option<int>)> := [];
    var k := 0;
    assert doc.routes[k..] == doc.routes;
    PrependNothing(RouteEntries(gtfsInfo, doc, doc.routes));
    while k < |doc.routes|
      invariant 0 <= k <= |doc.routes| && |routes| == k
      invariant RouteEntries(gtfsInfo, doc, doc.routes) == Prepend(routes, RouteEntries(gtfsInfo, doc, doc.routes[k..]))
    {
      var route := doc.routes[k];
      assert doc.routes[k..][0] == route && doc.routes[k..][1..] == doc.routes[k + 1..];
      var agencyId := AgencyOf(gtfsInfo, route.id);
      if agencyId.Err? {
        return Err(agencyId.error);
      }
      var routeShortName := ShortName(route.privateCode);
      var routeType := RouteType(doc);
      if routeType.Err? {
        return Err(routeType.error);
      }
      var entry := (RouteRow(route.id, agencyId.value, routeShortName, route.description, 0), routeType.value);
      PrependTwice(routes, [entry], RouteEntries(gtfsInfo, doc, doc.routes[k + 1..]));
      routes := routes + [entry];
      k := k + 1;
    }
    assert doc.routes[k..] == [];
    assert routes + [] == routes;
    var routeType := routes[0].1;
    if routeType.None? {
      return Err(TypeError);
    }
    r := Ok(seq(|routes|, i requires 0 <= i < |routes| => routes[i].0.(routeType := routeType.value)));
  }

  // ---------------------------------------------------------------------------
  // Properties

  /** The short name is the PrivateCode up to, not including, its first `-_-`
      (all of it when there is none), and holds no `-_-` itself. */
  lemma ShortNameSpec(code: string)
    ensures var s := ShortName(code);
      && |s| <= |code| && s == code[..|s|]
      && !Contains(s, ShortNameSeparator)
      && (s != code ==> OccursAt(code, ShortNameSeparator, |s|))
      && (s == code <==> !Contains(code, ShortNameSeparator))
  {
    var sep := ShortNameSeparator;
    var s := ShortName(code);
    match IndexOf(code, sep)
    case None =>
      assert s == code;
    case Some(i) =>
      assert s == code[..i];
      forall j ensures !OccursAt(s, sep, j) {
        if OccursAt(s, sep, j) {
          assert code[j..j + |sep|] == s[j..j + |sep|];
          assert OccursAt(code, sep, j);
        }
      }
      assert IndexOf(s, sep).None?;
  }

  /** `"1-_-A"` has short name `"1"`; a code without the separator is its own. */
  lemma ShortNameExamples()
    ensures ShortName("1-_-A") == "1"
    ensures ShortName("N73") == "N73"
  {
    assert "1-_-A" == "1" + ShortNameSeparator + "A";
    SplitAtFirstPairOf3("1", "A");
    ShortNameAbsent("N73");
  }

  lemma SplitAtFirstPairOf3(a: string, b: string)
    requires |a| == 1 && a[0] != '-'
    ensures Split(a + ShortNameSeparator + b, ShortNameSeparator)[0] == a
  {
    var s := a + ShortNameSeparator + b;
    assert !OccursAt(s, ShortNameSeparator, 0) by { assert s[0] != '-'; }
    assert OccursAt(s, ShortNameSeparator, 1) by { assert s[1..4] == ShortNameSeparator; }
    assert IndexOf(s[1..], ShortNameSeparator) == Some(0) by { assert s[1..][..3] == ShortNameSeparator; }
    assert IndexOf(s, ShortNameSeparator) == Some(1);
    assert s[..1] == a;
  }

  lemma ShortNameAbsent(code: string)
    requires '-' !in code
    ensures ShortName(code) == code
  {
    AbsentCharNotContained(code, ShortNameSeparator, 0);
  }

  /** On success there is one row per Route element, in document order, each
      with the route's id, its first agency, its short and long name, and the
      one route type of the document's mode. */
  lemma {:induction false} RouteEntriesShape(gtfsInfo: seq<InfoRow>, doc: Document, routes: seq<Route>)
    ensures var r := RouteEntries(gtfsInfo, doc, routes);
      r.Ok? ==> (
        && |r.value| == |routes|
        && forall i :: 0 <= i < |routes| ==>
          && AgencyOf(gtfsInfo, routes[i].id) == Ok(r.value[i].0.agencyId)
          && r.value[i].0.routeId == routes[i].id
          && r.value[i].0.shortName == ShortName(routes[i].privateCode)
          && r.value[i].0.longName == routes[i].description
          && RouteType(doc) == Ok(r.value[i].1))
    decreases |routes|
  {
    if |routes| > 0 {
      RouteEntriesShape(gtfsInfo, doc, routes[1..]);
      var r := RouteEntries(gtfsInfo, doc, routes);
      if r.Ok? {
        forall i | 0 < i < |routes| ensures routes[i] == routes[1..][i - 1] { }
      }
    }
  }

  lemma RoutesShape(gtfsInfo: seq<InfoRow>, doc: Document)
    ensures var r := RoutesOf(gtfsInfo, doc);
      r.Ok? ==> (
        && |r.value| == |doc.routes| > 0
        && |doc.services| == 1
        && forall i :: 0 <= i < |doc.routes| ==>
          && Some(r.value[i].routeType) == Mode(doc.services[0].mode)
          && r.value[i].routeId == doc.routes[i].id
          && AgencyOf(gtfsInfo, doc.routes[i].id) == Ok(r.value[i].agencyId)
          && r.value[i].shortName == ShortName(doc.routes[i].privateCode)
          && r.value[i].longName == doc.routes[i].description)
  {
    RouteEntriesShape(gtfsInfo, doc, doc.routes);
  }

  /** Without Route elements `get_routes` fails before any lookup. */
  lemma NoRoutesFails(gtfsInfo: seq<InfoRow>, doc: Document)
    requires |doc.routes| == 0
    ensures RoutesOf(gtfsInfo, doc) == Err(AttributeError)
  {
  }

  /** When every route has an agency, a mode outside the table gets as far as
      the integer conversion of the route type column, which fails on None. */
  lemma UnknownModeTypeError(gtfsInfo: seq<InfoRow>, doc: Document)
    requires |doc.services| == 1 && !KnownMode(doc.services[0].mode)
    requires |doc.routes| > 0 && forall r <- doc.routes :: AgencyOf(gtfsInfo, r.id).Ok?
    ensures RoutesOf(gtfsInfo, doc) == Err(TypeError)
  {
    RouteEntriesOk(gtfsInfo, doc, doc.routes);
    RouteEntriesShape(gtfsInfo, doc, doc.routes);
  }

  /** The route loop gets through when the mode lookup and every agency lookup do. */
  lemma {:induction false} RouteEntriesOk(gtfsInfo: seq<InfoRow>, doc: Document, routes: seq<Route>)
    requires RouteType(doc).Ok? && forall r <- routes :: AgencyOf(gtfsInfo, r.id).Ok?
    ensures RouteEntries(gtfsInfo, doc, routes).Ok?
    decreases |routes|
  {
    if |routes| > 0 {
      assert forall r <- routes[1..] :: r in routes;
      RouteEntriesOk(gtfsInfo, doc, routes[1..]);
    }
  }

  /** A mode outside the table makes `get_routes` fail, with or without routes. */
  lemma UnknownModeFails(gtfsInfo: seq<InfoRow>, doc: Document)
    requires |doc.services| == 1 && !KnownMode(doc.services[0].mode)
    ensures RoutesOf(gtfsInfo, doc).Err?
  {
  }
}
