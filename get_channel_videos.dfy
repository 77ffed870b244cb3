/** backend/handlers/get_channel_videos.py: the request handling of the
    channel video list up to the two SQL statements it sends. The path and
    query parameters are maps from name to string (an absent `pathParameters`
    or `queryStringParameters` is the empty map); `get_channel_by_id` is the
    set of channel ids the database holds. The statements are modelled as
    their filter, ordering and paging text, where every `%s` placeholder
    lives; the fixed FROM/JOIN and column text around it has none. */
module GetChannelVideos {
  import opened Wrappers
  import opened Text
  import opened Decimal

  /** A bound parameter of a statement. */
  datatype Param = IntParam(i: int) | TextParam(s: string)

  /** The two statements and their parameters. */
  datatype QueryPlan = QueryPlan(
    channelId: int,
    orderBy: string,
    limit: int,
    offset: int,
    conditions: seq<Statement>,
    countQuery: Statement,
    countParams: seq<Param>,
    pageQuery: Statement,
    pageParams: seq<Param>)

  /** What the handler answers: an error envelope, or the statements it runs. */
  datatype Response =
    | ErrorResponse(status: int, code: string)
    | Query(plan: QueryPlan)

  const InvalidParameter := ErrorResponse(400, "INVALID_PARAMETER")
  const NotFound := ErrorResponse(404, "NOT_FOUND")
  const InternalError := ErrorResponse(500, "INTERNAL_ERROR")

  /** A piece of statement text: fixed SQL, or a `%s` placeholder. */
  datatype Fragment = Sql(text: string) | Placeholder

  /** Statement text as its fragments. */
  type Statement = seq<Fragment>

  const ChannelCondition: Statement := [Sql("v.channel_id = "), Placeholder]
  const FromCondition: Statement := [Sql("DATE(v.published_at) >= "), Placeholder]
  const ToCondition: Statement := [Sql("DATE(v.published_at) <= "), Placeholder]
  const MinViewsCondition: Statement := [Sql(" AND COALESCE(latest_stats.view_count, 0) >= "), Placeholder]
  const DefaultOrder := "v.published_at DESC"

  /** `query_params.get(name, default)`. */
  function Get(params: map<string, string>, name: string, default: string): (r: string)
    ensures name !in params ==> r == default
    ensures name in params ==> r == params[name]
  {
    if name in params then params[name] else default
  }

  /** Python truthiness of `params.get(name)`: present and not empty. */
  predicate Given(params: map<string, string>, name: string) {
    name in params && params[name] != ""
  }

  /** `order_by_map.get(sort, "v.published_at DESC")`. */
  function OrderBy(sort: string): (r: string)
    ensures sort !in {"views_desc", "views_asc", "likes_desc", "comments_desc", "date_desc", "date_asc"} ==> r == DefaultOrder
    ensures r == DefaultOrder <==> sort !in {"views_desc", "views_asc", "likes_desc", "comments_desc", "date_asc"}
  {
    match sort
    case "views_desc" => "COALESCE(latest_stats.view_count, 0) DESC"
    case "views_asc" => "COALESCE(latest_stats.view_count, 0) ASC"
    case "likes_desc" => "COALESCE(latest_stats.like_count, 0) DESC"
    case "comments_desc" => "COALESCE(latest_stats.comment_count, 0) DESC"
    case "date_desc" => "v.published_at DESC"
    case "date_asc" => "v.published_at ASC"
    case _ => DefaultOrder
  }

  /** Number of placeholders in a statement. */
  function Placeholders(st: Statement): nat
  {
    if st == [] then 0
    else Placeholders(st[..|st| - 1]) + (if st[|st| - 1] == Placeholder then 1 else 0)
  }

  lemma {:induction false} PlaceholdersConcat(a: Statement, b: Statement)
    ensures Placeholders(a + b) == Placeholders(a) + Placeholders(b)
    decreases |b|
  {
    if b == [] {
      assert a + b == a;
    } else {
      assert (a + b)[..|a + b| - 1] == a + b[..|b| - 1];
      PlaceholdersConcat(a, b[..|b| - 1]);
    }
  }

  lemma PlaceholdersSingle(f: Fragment)
    ensures Placeholders([f]) == if f == Placeholder then 1 else 0
  {
    assert [f][..0] == [];
  }

  /** `sep.join(parts)` on statements. */
  function JoinStatements(parts: seq<Statement>, sep: Statement): Statement
  {
    if |parts| == 0 then []
    else if |parts| == 1 then parts[0]
    else JoinStatements(parts[..|parts| - 1], sep) + sep + parts[|parts| - 1]
  }

  /** Joining with a separator free of placeholders adds none: one placeholder
      per condition when each condition has one. */
  lemma {:induction false} JoinPlaceholders(parts: seq<Statement>, sep: Statement)
    requires Placeholders(sep) == 0
    requires forall i :: 0 <= i < |parts| ==> Placeholders(parts[i]) == 1
    ensures Placeholders(JoinStatements(parts, sep)) == |parts|
  {
    if |parts| > 1 {
      var init := parts[..|parts| - 1];
      JoinPlaceholders(init, sep);
      PlaceholdersConcat(JoinStatements(init, sep), sep);
      PlaceholdersConcat(JoinStatements(init, sep) + sep, parts[|parts| - 1]);
    }
  }

  /** The conditions the handler builds: the channel filter, then `from`, then `to` when given. */
  function Conditions(query: map<string, string>): (r: seq<Statement>)
    ensures |r| >= 1 && r[0] == ChannelCondition
  {
    [ChannelCondition]
      + (if Given(query, "from") then [FromCondition] else [])
      + (if Given(query, "to") then [ToCondition] else [])
  }

  /** The parameters of the conditions, in their order. */
  function FilterParams(id: int, query: map<string, string>): seq<Param> {
    [IntParam(id)]
      + (if Given(query, "from") then [TextParam(query["from"])] else [])
      + (if Given(query, "to") then [TextParam(query["to"])] else [])
  }

  /** The `minViews` parameter, when one is given. */
  function MinViewsParams(query: map<string, string>, minViews: int): seq<Param> {
    if Given(query, "minViews") then [IntParam(minViews)] else []
  }

  const And: Statement := [Sql(" AND ")]

  /** The WHERE text both statements share: the conditions joined with " AND ",
      then the `minViews` condition when one is given. */
  function Filter(query: map<string, string>): Statement {
    [Sql("WHERE ")] + JoinStatements(Conditions(query), And)
      + (if Given(query, "minViews") then MinViewsCondition else [])
  }

  /** The parameter a condition's placeholder takes: the channel id, or the
      `from` or `to` text. */
  function ParamFor(condition: Statement, id: int, query: map<string, string>): Param {
    if condition == FromCondition then TextParam(Get(query, "from", ""))
    else if condition == ToCondition then TextParam(Get(query, "to", ""))
    else IntParam(id)
  }

  /** The parameters pair off with the conditions one to one, in order: each
      condition's parameter sits at its own index. */
  lemma ConditionsMatchParams(id: int, query: map<string, string>)
    ensures |FilterParams(id, query)| == |Conditions(query)|
    ensures forall i :: 0 <= i < |Conditions(query)| ==>
      FilterParams(id, query)[i] == ParamFor(Conditions(query)[i], id, query)
  {
  }

  /** With a channel, a `from` date and `minViews` given, the filter reads
      `WHERE v.channel_id = %s AND DATE(v.published_at) >= %s AND COALESCE(...) >= %s`. */
  lemma FilterFromMinViews(from: string, minViews: string)
    requires from != "" && minViews != ""
    ensures Filter(map["from" := from, "minViews" := minViews]) ==
      [Sql("WHERE "), Sql("v.channel_id = "), Placeholder, Sql(" AND "), Sql("DATE(v.published_at) >= "), Placeholder,
       Sql(" AND COALESCE(latest_stats.view_count, 0) >= "), Placeholder]
  {
    var query := map["from" := from, "minViews" := minViews];
    assert Conditions(query) == [ChannelCondition, FromCondition];
    assert JoinStatements(Conditions(query), And) == ChannelCondition + And + FromCondition by {
      assert Conditions(query)[..1] == [ChannelCondition];
    }
  }

  /** The count statement around its filter. */
  function CountQuery(filter: Statement): Statement {
    [Sql("SELECT COUNT(*) as total ")] + filter
  }

  /** The page statement around its filter and ordering. */
  function PageQuery(filter: Statement, orderBy: string): Statement {
    filter + [Sql(" ORDER BY " + orderBy + " LIMIT "), Placeholder, Sql(" OFFSET "), Placeholder]
  }

  /** `lambda_handler` up to the statements it runs. A missing, empty or
      non-integer path id is a 400, an unknown channel a 404; a `limit`,
      `offset` or given `minViews` that `int()` rejects raises `ValueError`,
      which the catch-all turns into a 500. */
  method LambdaHandler(pathParameters: map<string, string>, query: map<string, string>, knownChannels: set<int>)
    returns (resp: Response)
    ensures !Given(pathParameters, "id") ==> resp == InvalidParameter
    ensures Given(pathParameters, "id") && ParseInt(pathParameters["id"]).None? ==> resp == InvalidParameter
    ensures Given(pathParameters, "id") && ParseInt(pathParameters["id"]).Some? ==>
      var id := ParseInt(pathParameters["id"]).value;
      var limit := ParseInt(Get(query, "limit", "20"));
      var offset := ParseInt(Get(query, "offset", "0"));
      var minViews := if Given(query, "minViews") then ParseInt(query["minViews"]) else Some(0);
      (id !in knownChannels ==> resp == NotFound) &&
      (id in knownChannels && (limit.None? || offset.None? || minViews.None?) ==> resp == InternalError) &&
      (id in knownChannels && limit.Some? && offset.Some? && minViews.Some? ==>
        PlanFor(resp, id, query, limit.value, offset.value, minViews.value))
  {
    if "id" !in pathParameters || pathParameters["id"] == "" {
      return InvalidParameter;
    }
    var parsedId := ParseInt(pathParameters["id"]);
    if parsedId.None? {
      return InvalidParameter;
    }
    var channelId := parsedId.value;
    if channelId !in knownChannels {
      return NotFound;
    }

    var sort := Get(query, "sort", "date_desc");
    var parsedLimit := ParseInt(Get(query, "limit", "20"));
    if parsedLimit.None? {
      return InternalError;
    }
    var parsedOffset := ParseInt(Get(query, "offset", "0"));
    if parsedOffset.None? {
      return InternalError;
    }
    var limit, offset := parsedLimit.value, parsedOffset.value;
    var orderBy := OrderBy(sort);

    resp := BuildPlan(channelId, query, orderBy, limit, offset);
  }

  /** The answer for a known channel whose filters all parse: the plan's
      fields, both statements built around the one shared filter (the page
      statement with the chosen ordering), the parameters in the order of their
      placeholders, and as many placeholders in each statement as it has
      parameters. */
  predicate PlanFor(resp: Response, id: int, query: map<string, string>, limit: int, offset: int, minViews: int) {
    && resp.Query?
    && resp.plan.channelId == id
    && resp.plan.limit == limit
    && resp.plan.offset == offset
    && resp.plan.orderBy == OrderBy(Get(query, "sort", "date_desc"))
    && resp.plan.conditions == Conditions(query)
    && resp.plan.countParams == FilterParams(id, query) + MinViewsParams(query, minViews)
    && resp.plan.pageParams == resp.plan.countParams + [IntParam(limit), IntParam(offset)]
    && resp.plan.countQuery == CountQuery(Filter(query))
    && resp.plan.pageQuery == PageQuery(Filter(query), resp.plan.orderBy)
    && Placeholders(resp.plan.countQuery) == |resp.plan.countParams|
    && Placeholders(resp.plan.pageQuery) == |resp.plan.pageParams|
  }

  /** From the conditions to the two statements: a `minViews` that `int()`
      rejects is the 500 of the catch-all. */
  method BuildPlan(channelId: int, query: map<string, string>, orderBy: string, limit: int, offset: int)
    returns (resp: Response)
    requires orderBy == OrderBy(Get(query, "sort", "date_desc"))
    ensures Given(query, "minViews") && ParseInt(query["minViews"]).None? ==> resp == InternalError
    ensures !Given(query, "minViews") ==> PlanFor(resp, channelId, query, limit, offset, 0)
    ensures Given(query, "minViews") && ParseInt(query["minViews"]).Some? ==>
      PlanFor(resp, channelId, query, limit, offset, ParseInt(query["minViews"]).value)
  {
    var conditions, params := BuildConditions(query, channelId);
    var whereClause := JoinStatements(conditions, And);
    var filter := [Sql("WHERE ")] + whereClause;

    if Given(query, "minViews") {
      filter := [Sql("WHERE ")] + whereClause + MinViewsCondition;
      var parsedMinViews := ParseInt(query["minViews"]);
      if parsedMinViews.None? {
        return InternalError;
      }
      params := params + [IntParam(parsedMinViews.value)];
    }
    FilterPlaceholders(whereClause);
    assert filter == Filter(query);

    var countQuery := CountQuery(filter);
    var countParams := params;
    params := params + [IntParam(limit), IntParam(offset)];
    var pageQuery := PageQuery(filter, orderBy);
    StatementPlaceholders(filter, orderBy);
    resp := Query(QueryPlan(channelId, orderBy, limit, offset, conditions, countQuery, countParams, pageQuery, params));
  }

  /** The `from`/`to` part of the handler: the conditions and their parameters. */
  method BuildConditions(query: map<string, string>, channelId: int)
    returns (conditions: seq<Statement>, params: seq<Param>)
    ensures conditions == Conditions(query)
    ensures params == FilterParams(channelId, query)
    ensures Placeholders(JoinStatements(conditions, And)) == |conditions| == |params|
  {
    conditions := [ChannelCondition];
    params := [IntParam(channelId)];
    if Given(query, "from") {
      conditions := conditions + [FromCondition];
      params := params + [TextParam(query["from"])];
    }
    if Given(query, "to") {
      conditions := conditions + [ToCondition];
      params := params + [TextParam(query["to"])];
    }
    PlaceholdersInvariant(conditions, params, query);
  }

  /** The conditions built so far carry one placeholder and one parameter each. */
  lemma {:induction false} PlaceholdersInvariant(conditions: seq<Statement>, params: seq<Param>, query: map<string, string>)
    requires conditions == Conditions(query)
    requires |params| == 1 + (if Given(query, "from") then 1 else 0) + (if Given(query, "to") then 1 else 0)
    ensures Placeholders(JoinStatements(conditions, And)) == |conditions| == |params|
  {
    forall i | 0 <= i < |conditions| ensures Placeholders(conditions[i]) == 1 {
      assert conditions[i] in {ChannelCondition, FromCondition, ToCondition};
    }
    JoinPlaceholders(conditions, And);
  }

  /** The WHERE text has one placeholder per condition, plus one for `minViews`. */
  lemma {:induction false} FilterPlaceholders(whereClause: Statement)
    ensures Placeholders([Sql("WHERE ")] + whereClause) == Placeholders(whereClause)
    ensures Placeholders([Sql("WHERE ")] + whereClause + MinViewsCondition) == Placeholders(whereClause) + 1
  {
    PlaceholdersSingle(Sql("WHERE "));
    PlaceholdersConcat([Sql("WHERE ")], whereClause);
    PlaceholdersSingle(MinViewsCondition[0]);
    PlaceholdersSingle(Placeholder);
    PlaceholdersConcat([MinViewsCondition[0]], [Placeholder]);
    assert MinViewsCondition == [MinViewsCondition[0]] + [Placeholder];
    PlaceholdersConcat([Sql("WHERE ")] + whereClause, MinViewsCondition);
  }

  /** The count statement adds no placeholder to the filter; the page statement adds two. */
  lemma {:induction false} StatementPlaceholders(filter: Statement, orderBy: string)
    ensures Placeholders(CountQuery(filter)) == Placeholders(filter)
    ensures Placeholders(PageQuery(filter, orderBy)) == Placeholders(filter) + 2
  {
    var head := Sql("SELECT COUNT(*) as total ");
    PlaceholdersSingle(head);
    PlaceholdersConcat([head], filter);
    var limitText, offsetText := Sql(" ORDER BY " + orderBy + " LIMIT "), Sql(" OFFSET ");
    PlaceholdersSingle(limitText);
    PlaceholdersSingle(Placeholder);
    PlaceholdersSingle(offsetText);
    PlaceholdersConcat(filter, [limitText]);
    PlaceholdersConcat(filter + [limitText], [Placeholder]);
    PlaceholdersConcat(filter + [limitText] + [Placeholder], [offsetText]);
    PlaceholdersConcat(filter + [limitText] + [Placeholder] + [offsetText], [Placeholder]);
    assert PageQuery(filter, orderBy) == filter + [limitText] + [Placeholder] + [offsetText] + [Placeholder];
  }
}
