/**
 * `/api/subscribers` (src/pages/api/subscribers.ts): a paged `GET`, a bulk
 * `POST` and a single `DELETE`. The pagination arithmetic and the request
 * checks are modelled; the database's answers are parameters.
 */
module SubscribersApi {
  import opened Wrappers
  import opened Js
  import opened Mailer

  // ---------------------------------------------------------------------
  // parseInt
  // ---------------------------------------------------------------------

  /** The longest prefix of `s` made of digits. */
  function LeadingDigits(s: string): (d: string)
    ensures IsDigits(d) && d <= s
    ensures |d| < |s| ==> !('0' <= s[|d|] <= '9')
  {
    if |s| == 0 || !('0' <= s[0] <= '9') then []
    else [s[0]] + LeadingDigits(s[1..])
  }

  /**
   * `parseInt(s)` in base ten: an optional sign, then the leading digits; no
   * digits at all gives NaN. Leading white space is not modelled.
   */
  function ParseInt(s: string): (r: JsNumber)
    ensures r.NaN? <==> |LeadingDigits(if |s| > 0 && s[0] in "+-" then s[1..] else s)| == 0
  {
    var body := if |s| > 0 && s[0] in "+-" then s[1..] else s;
    var d := LeadingDigits(body);
    if |d| == 0 then NaN
    else if |s| > 0 && s[0] == '-' then Num(0 - DigitsValue(d) as int)
    else Num(DigitsValue(d))
  }

  lemma {:induction false} LeadingDigitsOfDigits(s: string)
    requires IsDigits(s)
    ensures LeadingDigits(s) == s
    decreases |s|
  {
    if |s| > 0 {
      LeadingDigitsOfDigits(s[1..]);
    }
  }

  /** A page number written in decimal reads back as itself. */
  lemma ParseIntOfDecimal(n: nat)
    ensures ParseInt(Decimal(n)) == Num(n)
  {
    var s := Decimal(n);
    DecimalRoundTrip(n);
    LeadingDigitsOfDigits(s);
    assert |s| > 0 && '0' <= s[0] <= '9' by {
      DecimalIsDigits(n);
    }
    assert s[0] !in "+-";
  }

  // ---------------------------------------------------------------------
  // GET
  // ---------------------------------------------------------------------

  /** The default query values, `page = "1"` and `limit = "50"`. */
  const DefaultPage: string := "1"
  const DefaultLimit: string := "50"

  /** A destructuring default: it applies only when the parameter is absent. */
  function WithDefault(param: Option<string>, default: string): string {
    if param.Some? then param.value else default
  }

  /** The inclusive row range `.range(offset, offset + limit - 1)` of one page. */
  datatype Window = Window(first: int, last: int)

  /** `offset = (page - 1) * limit` and the inclusive range that starts there. */
  function PageWindow(page: int, limit: int): (w: Window)
    ensures w.last - w.first + 1 == limit
    ensures w.first == (page - 1) * limit
  {
    var offset := (page - 1) * limit;
    Window(offset, offset + limit - 1)
  }

  /** Each page starts right after the previous one ends. */
  lemma PagesAreContiguous(page: int, limit: int)
    ensures PageWindow(page + 1, limit).first == PageWindow(page, limit).last + 1
  {
  }

  /**
   * For a positive limit the pages from 1 on partition the rows: row `n`
   * falls in page `p` exactly when `p = n / limit + 1`.
   */
  lemma PagesPartitionRows(n: nat, page: int, limit: int)
    requires limit > 0
    ensures PageWindow(page, limit).first <= n <= PageWindow(page, limit).last <==> page == n / limit + 1
  {
    var q := n / limit;
    assert q * limit <= n < (q + 1) * limit;
    if page <= q {
      assert (page - 1) * limit + limit - 1 < q * limit by {
        assert (page - 1) * limit + limit == page * limit;
        MulMonotone(page, q, limit);
      }
    } else if page >= q + 2 {
      assert (page - 1) * limit >= (q + 1) * limit by {
        MulMonotone(q + 1, page - 1, limit);
      }
    }
  }

  lemma MulMonotone(a: int, b: int, c: int)
    requires a <= b && c > 0
    ensures a * c <= b * c
  {
  }

  /** A subscriber row as the table stores it. */
  datatype Subscriber = Subscriber(email: string, name: Option<string>)

  /** The database's answer to the page query: rows (possibly null) and the exact count (possibly null). */
  datatype PageAnswer = PageAnswer(rows: Option<seq<Subscriber>>, count: Option<nat>)

  datatype Response =
    | Listing(subscribers: seq<Subscriber>, total: nat, page: JsNumber, limit: JsNumber)
    | Inserted(inserted: nat)
    | Removed
    | BadRequest(message: string)
    | ServerError(message: string)
    | MethodNotAllowed

  /** JavaScript's `a + b`, `a - b` and `a * b` on numbers: a NaN operand makes the result NaN. */
  function Plus(a: JsNumber, b: JsNumber): JsNumber {
    if a.Num? && b.Num? then Num(a.n + b.n) else NaN
  }

  function Minus(a: JsNumber, b: JsNumber): JsNumber {
    if a.Num? && b.Num? then Num(a.n - b.n) else NaN
  }

  function Times(a: JsNumber, b: JsNumber): JsNumber {
    if a.Num? && b.Num? then Num(a.n * b.n) else NaN
  }

  /** The two bounds handed to `.range(from, to)`, either of which may be NaN. */
  datatype RangeCall = RangeCall(from: JsNumber, to: JsNumber)

  /**
   * The range the handler always asks the database for:
   * `.range(offset, offset + limitNum - 1)` with `offset = (pageNum - 1) * limitNum`.
   * When both parameters parse it is the page's window; otherwise both bounds are NaN.
   */
  function Requested(page: Option<string>, limit: Option<string>): (r: RangeCall)
    ensures var p := ParseInt(WithDefault(page, DefaultPage));
      var l := ParseInt(WithDefault(limit, DefaultLimit));
      (r.from.Num? <==> p.Num? && l.Num?) &&
      (r.to.Num? <==> r.from.Num?) &&
      (r.from.Num? ==> Window(r.from.n, r.to.n) == PageWindow(p.n, l.n)) &&
      (!r.from.Num? ==> r == RangeCall(NaN, NaN))
  {
    var p := ParseInt(WithDefault(page, DefaultPage));
    var l := ParseInt(WithDefault(limit, DefaultLimit));
    var offset := Times(Minus(p, Num(1)), l);
    RangeCall(offset, Minus(Plus(offset, l), Num(1)))
  }

  /** Without parameters the handler asks for rows 0 to 49. */
  lemma RequestedDefault()
    ensures Requested(None, None) == RangeCall(Num(0), Num(49))
  {
    DefaultsParse();
  }

  lemma DefaultsParse()
    ensures ParseInt(DefaultPage) == Num(1) && ParseInt(DefaultLimit) == Num(50)
  {
    ParseIntOfDecimal(1);
    ParseIntOfDecimal(50);
    assert Decimal(1) == DefaultPage;
    assert Decimal(50) == DefaultLimit;
  }

  /**
   * The `GET` branch: `subscribers: data || []`, `total: count || 0`, and the
   * parsed `page` and `limit` echoed back.
   */
  function ListSubscribers(page: Option<string>, limit: Option<string>, answer: Result<PageAnswer, string>): (r: Response)
    ensures answer.Err? ==> r == ServerError(answer.error)
    ensures answer.Ok? ==> r.Listing?
    ensures answer.Ok? ==>
      r.page == ParseInt(WithDefault(page, DefaultPage)) && r.limit == ParseInt(WithDefault(limit, DefaultLimit))
    ensures answer.Ok? ==> (r.page.Num? && r.limit.Num? <==> Requested(page, limit).from.Num?)
    ensures answer.Ok? && r.page.Num? && r.limit.Num? ==>
      var w := PageWindow(r.page.n, r.limit.n);
      Requested(page, limit) == RangeCall(Num(w.first), Num(w.last))
    ensures answer.Ok? ==> r.total == answer.value.count.GetOr(0)
    ensures answer.Ok? ==> r.subscribers == answer.value.rows.GetOr([])
  {
    match answer
    case Err(message) => ServerError(message)
    case Ok(a) =>
      Listing(a.rows.GetOr([]), a.count.GetOr(0),
              ParseInt(WithDefault(page, DefaultPage)), ParseInt(WithDefault(limit, DefaultLimit)))
  }

  /** Without parameters the listing echoes page 1 and limit 50. */
  lemma ListingDefaults(answer: PageAnswer)
    ensures ListSubscribers(None, None, Ok(answer)).page == Num(1)
    ensures ListSubscribers(None, None, Ok(answer)).limit == Num(50)
  {
    DefaultsParse();
  }

  // ---------------------------------------------------------------------
  // POST and DELETE
  // ---------------------------------------------------------------------

  /** The `subscribers` field of a `POST` body: absent, something other than an array, or an array. */
  datatype Upload = Missing | NotAnArray | Rows(rows: seq<Subscriber>)

  /**
   * The `POST` branch. `answer` is the upsert's result: its exact count,
   * possibly null, or an error.
   */
  function AddSubscribers(upload: Upload, answer: Result<Option<nat>, string>): (r: Response)
    ensures r.BadRequest? <==> !upload.Rows? || |upload.rows| == 0
    ensures upload.Rows? && |upload.rows| > 0 && answer.Err? ==> r == ServerError(answer.error)
    ensures r.Inserted? <==> upload.Rows? && |upload.rows| > 0 && answer.Ok?
    ensures r.Inserted? && answer.value.Some? ==> r.inserted == answer.value.value
    ensures r.Inserted? && answer.value.None? ==> r.inserted == |upload.rows|
  {
    if !upload.Rows? || |upload.rows| == 0 then BadRequest("No subscribers provided")
    else match answer
      case Err(message) => ServerError(message)
      case Ok(count) => Inserted(count.GetOr(|upload.rows|))
  }

  /** The `id` query parameter: absent, a single value, or repeated (an array). */
  datatype IdParam = Absent | Single(id: string) | Repeated(ids: seq<string>)

  /**
   * The `DELETE` branch over the table's ids. `deleteError` is the error the
   * delete reported, if any; only a non-empty single id reaches the table.
   */
  function RemoveSubscriber(param: IdParam, deleteError: Option<string>, ids: set<string>): (r: (Response, set<string>))
    ensures r.0.BadRequest? <==> !param.Single? || param.id == ""
    ensures r.0.BadRequest? ==> r.1 == ids
    ensures param.Single? && param.id != "" && deleteError.Some? ==> r == (ServerError(deleteError.value), ids)
    ensures r.0 == Removed <==> param.Single? && param.id != "" && deleteError.None?
    ensures r.0 == Removed ==> r.1 == ids - {param.id} && param.id !in r.1
    ensures r.0 != Removed ==> r.1 == ids
  {
    if !param.Single? || param.id == "" then (BadRequest("Subscriber ID required"), ids)
    else if deleteError.Some? then (ServerError(deleteError.value), ids)
    else (Removed, ids - {param.id})
  }

  /** The dispatch: `GET`, `POST` and `DELETE` are served, anything else is 405 and leaves the table alone. */
  function Handle(m: Method, page: Option<string>, limit: Option<string>, listing: Result<PageAnswer, string>,
                  upload: Upload, upsert: Result<Option<nat>, string>,
                  param: IdParam, deleteError: Option<string>, ids: set<string>): (r: (Response, set<string>))
    ensures r.1 <= ids
    ensures r.1 != ids ==> m.Delete? && r.0 == Removed && |ids - r.1| == 1
    ensures r.0 == MethodNotAllowed <==> m.Other?
    ensures r.0.Listing? ==> m.Get?
    ensures r.0.Inserted? ==> m.Post?
    ensures r.0 == Removed ==> m.Delete? && param.Single? && r.1 == ids - {param.id}
  {
    match m
    case Get => (ListSubscribers(page, limit, listing), ids)
    case Post => (AddSubscribers(upload, upsert), ids)
    case Delete => RemoveSubscriber(param, deleteError, ids)
    case Other(_) => (MethodNotAllowed, ids)
  }

  /** Read from `req.method`, the answer is 405 exactly when the name is none of GET, POST and DELETE. */
  lemma HandleByName(name: string, page: Option<string>, limit: Option<string>, listing: Result<PageAnswer, string>,
                     upload: Upload, upsert: Result<Option<nat>, string>,
                     param: IdParam, deleteError: Option<string>, ids: set<string>)
    ensures Handle(MethodOf(name), page, limit, listing, upload, upsert, param, deleteError, ids).0 == MethodNotAllowed
            <==> !Known(name)
  {
  }
}
