/** The drinks HTTP handlers. Each handler is a function from the request it
    reads (query strings, path parameters, body fields, the uploaded file) and
    the outcome of the service call it would make, to the response it writes
    and the service call it made, if any. A handler that answers before
    reaching the service reports no call. */
module DrinksController {
  import opened Wrappers
  import opened Http
  import opened JsStrings
  import Service = DrinksService

  const PAGINATION_ERROR := "Invalid pagination parameters. Page must be >= 1, limit must be between 1 and 100."
  const INTERNAL_ERROR := "Internal server error"
  const DRINK_NOT_FOUND := "Drink not found"
  const SEARCH_QUERY_REQUIRED := "Search query is required"
  const MISSING_FIELDS := "Missing required fields: name, category, ingredients, instructions"
  const NO_IMAGE_FILE := "No image file provided"
  const IMAGE_UPLOADED := "Image uploaded successfully"
  const UPLOADS_PREFIX := "/uploads/"

  const DEFAULT_PAGE := 1
  const DEFAULT_LIMIT := 10
  const MAX_LIMIT := 100

  /** The JSON bodies the handlers send. */
  datatype Body =
    | ErrorBody(error: string)
    | PageBody(page: Service.Page)
    | DrinkBody(drink: Service.DrinkDTO)
    | EmptyBody
    | ImageUploadedBody(message: string, drink: Service.DrinkDTO, imageUrl: string)

  /** The service call a handler makes, with the arguments it passes. */
  datatype ServiceCall =
    | CallGetAll(page: int, limit: int)
    | CallGetById(id: string)
    | CallByCategory(category: string, page: int, limit: int)
    | CallSearch(query: string, page: int, limit: int)
    | CallCreate(createData: Service.CreateDrinkDTO)
    | CallUpdate(id: string, updateData: Service.UpdateDrinkDTO)
    | CallDelete(id: string)
    | CallUploadImage(id: string, imageUrl: string)

  datatype Handled = Handled(response: Response<Body>, call: Option<ServiceCall>)

  /** The request body of a create; `None` is a property absent or null. */
  datatype CreateBody = CreateBody(
    name: Option<string>,
    description: Option<string>,
    category: Option<string>,
    ingredients: Option<seq<string>>,
    instructions: Option<string>,
    imageUrl: Option<string>)

  /** The file multer attached to the request. */
  datatype UploadedFile = UploadedFile(filename: string)

  // ---------------------------------------------------------------------------
  // Parameter parsing and validation

  /** What `parseInt` receives for a query parameter: an absent one becomes
      the string "undefined". */
  function QueryText(param: Option<string>): string {
    match param
    case Some(s) => s
    case None => "undefined"
  }

  /** `parseInt(param) || default`: NaN and 0 are both falsy, so both give
      the default. */
  function ParamOr(param: Option<string>, default: int): (r: int)
    ensures ParseInt(QueryText(param)) in {None, Some(0)} ==> r == default
    ensures ParseInt(QueryText(param)) !in {None, Some(0)} ==> Some(r) == ParseInt(QueryText(param))
  {
    match ParseInt(QueryText(param))
    case None => default
    case Some(v) => if v == 0 then default else v
  }

  /** An absent parameter falls back to the default. */
  lemma ParamOrAbsent(default: int)
    ensures ParamOr(None, default) == default
  {
    ParseIntUndefined();
  }

  /** A decimal numeral with a sign is read as written, except that 0 falls
      back to the default. */
  lemma ParamOrNumeral(sign: Sign, n: nat, default: int)
    ensures ParamOr(Some(sign.Text() + DecimalString(n)), default)
      == if n == 0 then default else sign.Apply(n)
  {
    var s := sign.Text() + DecimalString(n);
    ParseIntNumeral(sign, n);
    assert QueryText(Some(s)) == s;
    assert ParseInt(s) == Some(sign.Apply(n));
  }

  predicate ValidPagination(page: int, limit: int) {
    !(page < 1 || limit < 1 || limit > MAX_LIMIT)
  }

  /** The page number a request asks for, `parseInt(req.query.page) || 1`. */
  function PageNumber(pageParam: Option<string>): int {
    ParamOr(pageParam, DEFAULT_PAGE)
  }

  /** The page size a request asks for, `parseInt(req.query.limit) || 10`. */
  function PageLimit(limitParam: Option<string>): int {
    ParamOr(limitParam, DEFAULT_LIMIT)
  }

  /** The pagination check the three listing handlers share. */
  predicate PaginationOk(pageParam: Option<string>, limitParam: Option<string>) {
    ValidPagination(PageNumber(pageParam), PageLimit(limitParam))
  }

  /** `!query || query.trim().length === 0` */
  predicate MissingQuery(q: Option<string>) {
    q.None? || q.value == "" || Trim(q.value) == []
  }

  /** The search query is missing exactly when it is absent or all whitespace. */
  lemma MissingQueryIff(q: Option<string>)
    ensures MissingQuery(q) <==> q.None? || AllWhitespace(q.value)
  {
    if q.Some? {
      TrimEmptyIff(q.value);
    }
  }

  /** The required-field test of `createDrink`: an empty string is falsy, an
      empty ingredients array is not. */
  predicate HasRequiredFields(b: CreateBody) {
    Truthy(b.name) && Truthy(b.category) && b.ingredients.Some? && Truthy(b.instructions)
  }

  /** The create data holds the body's fields unchanged. */
  predicate CarriesBody(data: Service.CreateDrinkDTO, b: CreateBody) {
    && b.name == Some(data.name)
    && b.category == Some(data.category)
    && b.ingredients == Some(data.ingredients)
    && b.instructions == Some(data.instructions)
    && data.description == b.description
    && data.imageUrl == b.imageUrl
  }

  function InternalError(): Response<Body> {
    Response(INTERNAL_SERVER_ERROR, ErrorBody(INTERNAL_ERROR))
  }

  // ---------------------------------------------------------------------------
  // Handlers

  /** `getAllDrinks` */
  function GetAllDrinks(pageParam: Option<string>, limitParam: Option<string>, outcome: Outcome<Service.Page>): (r: Handled)
    ensures r.call.None? <==> !PaginationOk(pageParam, limitParam)
    ensures !PaginationOk(pageParam, limitParam) ==> r.response == Response(BAD_REQUEST, ErrorBody(PAGINATION_ERROR))
    ensures r.call.Some? ==> r.call.value == CallGetAll(PageNumber(pageParam), PageLimit(limitParam))
    ensures r.response.status == OK <==> PaginationOk(pageParam, limitParam) && outcome.Returned?
    ensures r.response.status == OK ==> r.response.body == PageBody(outcome.value)
    ensures PaginationOk(pageParam, limitParam) && outcome.Threw? ==> r.response == InternalError()
  {
    var page, limit := PageNumber(pageParam), PageLimit(limitParam);
    if !ValidPagination(page, limit) then
      Handled(Response(BAD_REQUEST, ErrorBody(PAGINATION_ERROR)), None)
    else
      Handled(
        match outcome
        case Returned(p) => Response(OK, PageBody(p))
        case Threw(_) => InternalError(),
        Some(CallGetAll(page, limit)))
  }

  /** `getDrinkById` */
  function GetDrinkById(id: string, outcome: Outcome<Option<Service.DrinkDTO>>): (r: Handled)
    ensures r.call == Some(CallGetById(id))
    ensures r.response.status == NOT_FOUND <==> outcome == Returned(None)
    ensures r.response.status == NOT_FOUND ==> r.response.body == ErrorBody(DRINK_NOT_FOUND)
    ensures r.response.status == OK <==> outcome.Returned? && outcome.value.Some?
    ensures r.response.status == OK ==> r.response.body == DrinkBody(outcome.value.value)
    ensures outcome.Threw? ==> r.response == InternalError()
  {
    Handled(
      match outcome
      case Returned(None) => Response(NOT_FOUND, ErrorBody(DRINK_NOT_FOUND))
      case Returned(Some(d)) => Response(OK, DrinkBody(d))
      case Threw(_) => InternalError(),
      Some(CallGetById(id)))
  }

  /** `getDrinksByCategory` */
  function GetDrinksByCategory(category: string, pageParam: Option<string>, limitParam: Option<string>,
                               outcome: Outcome<Service.Page>): (r: Handled)
    ensures r.call.None? <==> !PaginationOk(pageParam, limitParam)
    ensures !PaginationOk(pageParam, limitParam) ==> r.response == Response(BAD_REQUEST, ErrorBody(PAGINATION_ERROR))
    ensures r.call.Some? ==> r.call.value == CallByCategory(category, PageNumber(pageParam), PageLimit(limitParam))
    ensures r.response.status == OK <==> PaginationOk(pageParam, limitParam) && outcome.Returned?
    ensures r.response.status == OK ==> r.response.body == PageBody(outcome.value)
    ensures PaginationOk(pageParam, limitParam) && outcome.Threw? ==> r.response == InternalError()
  {
    var page, limit := PageNumber(pageParam), PageLimit(limitParam);
    if !ValidPagination(page, limit) then
      Handled(Response(BAD_REQUEST, ErrorBody(PAGINATION_ERROR)), None)
    else
      Handled(
        match outcome
        case Returned(p) => Response(OK, PageBody(p))
        case Threw(_) => InternalError(),
        Some(CallByCategory(category, page, limit)))
  }

  /** `searchDrinks`: the query check comes before the pagination check. */
  function SearchDrinks(q: Option<string>, pageParam: Option<string>, limitParam: Option<string>,
                        outcome: Outcome<Service.Page>): (r: Handled)
    ensures MissingQuery(q) ==> r == Handled(Response(BAD_REQUEST, ErrorBody(SEARCH_QUERY_REQUIRED)), None)
    ensures !MissingQuery(q) && !PaginationOk(pageParam, limitParam) ==>
      r == Handled(Response(BAD_REQUEST, ErrorBody(PAGINATION_ERROR)), None)
    ensures r.call.Some? <==> !MissingQuery(q) && PaginationOk(pageParam, limitParam)
    ensures r.call.Some? ==> r.call.value == CallSearch(q.value, PageNumber(pageParam), PageLimit(limitParam))
    ensures r.response.status == OK <==> r.call.Some? && outcome.Returned?
    ensures r.response.status == OK ==> r.response.body == PageBody(outcome.value)
    ensures r.call.Some? && outcome.Threw? ==> r.response == InternalError()
  {
    var page, limit := PageNumber(pageParam), PageLimit(limitParam);
    if MissingQuery(q) then
      Handled(Response(BAD_REQUEST, ErrorBody(SEARCH_QUERY_REQUIRED)), None)
    else if !ValidPagination(page, limit) then
      Handled(Response(BAD_REQUEST, ErrorBody(PAGINATION_ERROR)), None)
    else
      Handled(
        match outcome
        case Returned(p) => Response(OK, PageBody(p))
        case Threw(_) => InternalError(),
        Some(CallSearch(q.value, page, limit)))
  }

  /** `createDrink`: the body is passed on as the create data. */
  function CreateDrink(body: CreateBody, outcome: Outcome<Service.DrinkDTO>): (r: Handled)
    ensures !HasRequiredFields(body) ==> r == Handled(Response(BAD_REQUEST, ErrorBody(MISSING_FIELDS)), None)
    ensures r.call.Some? <==> HasRequiredFields(body)
    ensures r.call.Some? ==> r.call.value.CallCreate? && CarriesBody(r.call.value.createData, body)
    ensures r.response.status == CREATED <==> HasRequiredFields(body) && outcome.Returned?
    ensures r.response.status == CREATED ==> r.response.body == DrinkBody(outcome.value)
    ensures HasRequiredFields(body) && outcome.Threw? ==> r.response == InternalError()
  {
    if !HasRequiredFields(body) then
      Handled(Response(BAD_REQUEST, ErrorBody(MISSING_FIELDS)), None)
    else
      var data := Service.CreateDrinkDTO(body.name.value, body.description, body.category.value,
                                         body.ingredients.value, body.instructions.value, body.imageUrl);
      Handled(
        match outcome
        case Returned(d) => Response(CREATED, DrinkBody(d))
        case Threw(_) => InternalError(),
        Some(CallCreate(data)))
  }

  /** `updateDrink`: a null answer would be a 404; the body is passed on as is. */
  function UpdateDrink(id: string, body: Service.UpdateDrinkDTO, outcome: Outcome<Option<Service.DrinkDTO>>): (r: Handled)
    ensures r.call == Some(CallUpdate(id, body))
    ensures r.response.status == NOT_FOUND <==> outcome == Returned(None)
    ensures r.response.status == NOT_FOUND ==> r.response.body == ErrorBody(DRINK_NOT_FOUND)
    ensures r.response.status == OK <==> outcome.Returned? && outcome.value.Some?
    ensures r.response.status == OK ==> r.response.body == DrinkBody(outcome.value.value)
    ensures outcome.Threw? ==> r.response == InternalError()
  {
    Handled(
      match outcome
      case Returned(None) => Response(NOT_FOUND, ErrorBody(DRINK_NOT_FOUND))
      case Returned(Some(d)) => Response(OK, DrinkBody(d))
      case Threw(_) => InternalError(),
      Some(CallUpdate(id, body)))
  }

  /** `deleteDrink`: 204 with no body whatever the service returned. */
  function DeleteDrink(id: string, outcome: Outcome<bool>): (r: Handled)
    ensures r.call == Some(CallDelete(id))
    ensures outcome.Returned? ==> r.response == Response(NO_CONTENT, EmptyBody)
    ensures outcome.Threw? ==> r.response == InternalError()
  {
    Handled(
      match outcome
      case Returned(_) => Response(NO_CONTENT, EmptyBody)
      case Threw(_) => InternalError(),
      Some(CallDelete(id)))
  }

  /** `uploadDrinkImage`: the stored URL is the uploads prefix and the file name. */
  function UploadDrinkImage(id: string, file: Option<UploadedFile>, outcome: Outcome<Option<Service.DrinkDTO>>): (r: Handled)
    ensures file.None? ==> r == Handled(Response(BAD_REQUEST, ErrorBody(NO_IMAGE_FILE)), None)
    ensures r.call.Some? <==> file.Some?
    ensures file.Some? ==> r.call == Some(CallUploadImage(id, UPLOADS_PREFIX + file.value.filename))
    ensures r.response.status == OK <==> file.Some? && outcome.Returned? && outcome.value.Some?
    ensures r.response.status == OK ==>
      r.response.body == ImageUploadedBody(IMAGE_UPLOADED, outcome.value.value, UPLOADS_PREFIX + file.value.filename)
    ensures r.response.status == NOT_FOUND <==> file.Some? && outcome == Returned(None)
    ensures file.Some? && outcome.Threw? ==> r.response == InternalError()
  {
    match file
    case None => Handled(Response(BAD_REQUEST, ErrorBody(NO_IMAGE_FILE)), None)
    case Some(f) =>
      var imageUrl := UPLOADS_PREFIX + f.filename;
      Handled(
        match outcome
        case Returned(None) => Response(NOT_FOUND, ErrorBody(DRINK_NOT_FOUND))
        case Returned(Some(d)) => Response(OK, ImageUploadedBody(IMAGE_UPLOADED, d, imageUrl))
        case Threw(_) => InternalError(),
        Some(CallUploadImage(id, imageUrl)))
  }

  // ---------------------------------------------------------------------------
  // Handlers composed with the service model

  /** The service's update and image update never answer null: their outcome,
      seen through the `DrinkDTO | null` type the handler expects. */
  function NeverNull(o: Outcome<Service.DrinkDTO>): (r: Outcome<Option<Service.DrinkDTO>>)
    ensures r != Returned(None)
    ensures o.Returned? <==> r.Returned?
  {
    match o
    case Returned(d) => Returned(Some(d))
    case Threw(m) => Threw(m)
  }

  /** Fed by the service, `updateDrink` and `uploadDrinkImage` never answer 404:
      a missing id makes the service throw, which answers 500. */
  lemma UpdateNeverNotFound(id: string, body: Service.UpdateDrinkDTO, file: Option<UploadedFile>,
                            o: Outcome<Service.DrinkDTO>)
    ensures UpdateDrink(id, body, NeverNull(o)).response.status != NOT_FOUND
    ensures UploadDrinkImage(id, file, NeverNull(o)).response.status != NOT_FOUND
  {
  }

  /** Fed by the table, `getDrinkById` answers 404 exactly for an unknown id. */
  lemma GetByIdAgainstTable(rows: seq<Service.Drink>, id: string)
    ensures var r := GetDrinkById(id, Returned(Service.GetDrinkById(rows, id)));
      (r.response.status == NOT_FOUND <==> !Service.HasId(rows, id))
      && (r.response.status == OK <==> Service.HasId(rows, id))
  {
  }

  /** A valid listing fed by the table answers 200 with at most `limit` (so
      at most 100) items and the size of the table as total. */
  lemma ListAgainstTable(rows: seq<Service.Drink>, pageParam: Option<string>, limitParam: Option<string>)
    requires PaginationOk(pageParam, limitParam)
    ensures var page, limit := PageNumber(pageParam), PageLimit(limitParam);
      var r := GetAllDrinks(pageParam, limitParam, Returned(Service.GetAllDrinks(rows, page, limit)));
      && r.response.status == OK
      && |r.response.body.page.data| <= limit <= MAX_LIMIT
      && r.response.body.page.total == |rows|
  {
  }

  /** `?page=0` is not rejected: it is read as the default page 1. */
  lemma PageZeroIsDefault(o: Outcome<Service.Page>)
    ensures GetAllDrinks(Some("0"), None, o).call == Some(CallGetAll(DEFAULT_PAGE, DEFAULT_LIMIT))
  {
    ParamOrNumeral(Unsigned, 0, DEFAULT_PAGE);
    ParamOrAbsent(DEFAULT_LIMIT);
    assert Unsigned.Text() + DecimalString(0) == "0";
  }

  /** Any negative page is rejected without calling the service. */
  lemma NegativePageRejected(n: nat, o: Outcome<Service.Page>)
    requires n > 0
    ensures GetAllDrinks(Some("-" + DecimalString(n)), None, o)
      == Handled(Response(BAD_REQUEST, ErrorBody(PAGINATION_ERROR)), None)
  {
    ParamOrNumeral(Minus, n, DEFAULT_PAGE);
    ParamOrAbsent(DEFAULT_LIMIT);
    assert Minus.Text() == "-";
  }

  /** Any limit above 100 is rejected without calling the service. */
  lemma LimitAboveMaxRejected(n: nat, o: Outcome<Service.Page>)
    requires n > MAX_LIMIT
    ensures GetAllDrinks(None, Some(DecimalString(n)), o)
      == Handled(Response(BAD_REQUEST, ErrorBody(PAGINATION_ERROR)), None)
  {
    ParamOrNumeral(Unsigned, n, DEFAULT_LIMIT);
    ParamOrAbsent(DEFAULT_PAGE);
    assert Unsigned.Text() + DecimalString(n) == DecimalString(n);
  }

  /** A blank search query is refused even when the pagination is also invalid:
      the query is checked first. */
  lemma BlankQueryCheckedFirst(ws: string, pageParam: Option<string>, limitParam: Option<string>,
                               o: Outcome<Service.Page>)
    requires AllWhitespace(ws)
    ensures SearchDrinks(Some(ws), pageParam, limitParam, o).response == Response(BAD_REQUEST, ErrorBody(SEARCH_QUERY_REQUIRED))
  {
    MissingQueryIff(Some(ws));
  }
}
