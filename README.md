# Drinks catalogue API in Dafny

This project models the request-handling core of a small REST backend for a drinks catalogue, written in TypeScript on Express and Prisma:

- the drinks controller, which parses and validates query strings and bodies, calls the service and maps results to HTTP statuses;
- the drinks service, which runs paginated, filtered and sorted reads, creates, partial updates, image updates and deletes against the `drink` table, and maps rows to DTOs;
- the upload middleware, with its image filter, its limits and its upload error handler;
- the error middleware, with the `CustomError` record, the final error handler and the 404 handler;
- the two authentication handlers.

Modules:

| file | module | what it holds |
|---|---|---|
| `wrappers.dfy` | `Wrappers` | `Option`, and `Outcome` (a value returned or an exception thrown with a message) |
| `http.dfy` | `Http` | `Response(status, body)` and the status codes used |
| `js_strings.dfy` | `JsStrings` | the JavaScript string semantics the handlers rely on: truthiness, `trim`, lower-casing, substring search, `parseInt` without a radix |
| `drinks_service.dfy` | `DrinksService` | the table as a `seq<Drink>`; Prisma's `where`, `orderBy: { createdAt: 'desc' }`, `skip`/`take` and `count` as functions; the reads as functions over the table; the writes as methods of the `DrinksStore` class, whose `rows` field they reassign |
| `drinks_controller.dfy` | `DrinksController` | each handler as a function from the request and the service's outcome to the response and the service call made, if any |
| `upload_middleware.dfy` | `UploadMiddleware` | POSIX `path.extname`, `fileFilter`, the limit constants, `handleUploadError` |
| `error_middleware.dfy` | `ErrorMiddleware` | `CustomError`, `errorHandler`, `notFoundHandler` |
| `auth_controller.dfy` | `AuthController` | `getCurrentUser`, `getUserProfile` |

Each controller handler returns `Handled(response, call)`. `call == None` means the handler answered without reaching the service. The service's result, or the exception it threw, is an `Outcome` parameter. The composition lemmas feed the service model's own results into the handlers.

Three behaviours of the code are easy to miss, and the model keeps them as written:

- **Missing ids on update and delete.** A missing id on update or delete gives 500, not 404. `prisma.drink.update` and `prisma.drink.delete` throw on a missing row, and the service catches that and throws its own error. So `DrinksStore.UpdateDrink`, `DrinksStore.UploadDrinkImage` and `DrinksStore.DeleteDrink` answer `Threw`, and the controller turns that into 500 (`DrinksController.UpdateNeverNotFound`).
- **Page and limit of 0.** `page=0` and `limit=0` are not rejected: `parseInt(x) || 1` and `parseInt(x) || 10` turn them into the defaults before the check (`DrinksController.PageZeroIsDefault`).
- **Search total.** The search count query drops the `mode: 'insensitive'` flag, so `total` counts case-sensitive matches while the page holds case-insensitive ones. The model keeps both filters as written (`DrinksService.SearchCountAtMost`, `DrinksService.SearchTotalMissesCaseVariants`).

## Model

| member | source | states |
|---|---|---|
| JsStrings.TrimStart | src/controllers/drinks.controller.ts:118 | the result is a suffix of the input; what was removed is all whitespace; the result is empty or starts with a non-whitespace character |
| JsStrings.TrimEnd | src/controllers/drinks.controller.ts:118 | the result is a prefix of the input; what was removed is all whitespace; the result is empty or ends with a non-whitespace character |
| JsStrings.TrimEmptyIff | src/controllers/drinks.controller.ts:118 | `s.trim().length === 0` holds exactly when every character of `s` is ECMAScript whitespace, the empty string included |
| JsStrings.Lower | src/middlewares/upload.middleware.ts:17 | lower-casing keeps the length and maps every character through the ASCII letter mapping |
| JsStrings.ContainsLower | src/services/drinks.service.ts:103-108 | an occurrence of the query in a column is still an occurrence once both are lower-cased |
| JsStrings.NotContainsLonger | src/middlewares/upload.middleware.ts:15-19 | a pattern longer than the tested string never matches |
| JsStrings.NotContainsMissingChar | src/middlewares/upload.middleware.ts:15-19 | a pattern holding a character the tested string lacks never matches |
| JsStrings.OccursAfterPrefix | src/middlewares/upload.middleware.ts:16-18 | an occurrence shifts right by the length of a prefix put in front of the string |
| JsStrings.LeadingDigits | src/controllers/drinks.controller.ts:15-16 | `parseInt` reads the longest prefix of digits of the radix, and the next character, if any, is not such a digit |
| JsStrings.DecimalString | src/controllers/drinks.controller.ts:15-16 | the numeral is non-empty, made of decimal digits, and begins with `0` exactly when the number is 0 |
| JsStrings.DecimalStringValue | src/controllers/drinks.controller.ts:15-16 | the digits of a numeral denote the number it was written from |
| JsStrings.ParseIntDecimal | src/controllers/drinks.controller.ts:15-16 | round trip: `parseInt` of whitespace, an optional sign, a decimal numeral and any non-digit tail gives back the signed number |
| JsStrings.ParseIntNumeral | src/controllers/drinks.controller.ts:15-16 | `parseInt` of a signed numeral gives back its signed value |
| JsStrings.ParseIntNoDigits | src/controllers/drinks.controller.ts:15-16 | `parseInt` gives `NaN` when the first non-blank character is neither a sign nor a digit |
| JsStrings.ParseIntUndefined | src/controllers/drinks.controller.ts:15-16 | an absent parameter, converted to the text "undefined", and the empty string both give `NaN` |
| JsStrings.ParseIntHex | src/controllers/drinks.controller.ts:15-16 | without a radix, a leading `0x` switches `parseInt` to hexadecimal |
| JsStrings.IsWhitespace | src/controllers/drinks.controller.ts:118 | the ECMAScript WhiteSpace and LineTerminator code points that `trim` removes |
| JsStrings.Trim | src/controllers/drinks.controller.ts:118 | `trim` is `trimStart` followed by `trimEnd` |
| JsStrings.Truthy | src/controllers/drinks.controller.ts:156-161 | an optional string is truthy exactly when present and non-empty |
| JsStrings.Contains | src/middlewares/upload.middleware.ts:15-19 | `hay` contains `needle` at some position, which is what an unanchored regular expression of one literal alternative and Prisma's `contains` test |
| JsStrings.ParseInt | src/controllers/drinks.controller.ts:15-16 | `parseInt(s)` without a radix: leading whitespace is skipped, then the signed number is read |
| JsStrings.ParseSigned | src/controllers/drinks.controller.ts:15-16 | an optional `+` or `-` sign, then the magnitude, negated after a `-`; `NaN` when there are no digits |
| JsStrings.ParseMagnitude | src/controllers/drinks.controller.ts:15-16 | a `0x` or `0X` prefix selects radix 16, otherwise radix 10; the longest run of digits of that radix is read, `NaN` when it is empty |
| DrinksService.OrUndefined | src/services/drinks.service.ts:222 | falling back to `undefined` gives an absent value exactly when the value is null or empty, and is the value otherwise |
| DrinksService.MapDrinkToDTO | src/services/drinks.service.ts:218-230 | every column is copied; description and image URL are present exactly when they are non-null and non-empty |
| DrinksService.MapDrinkToDTOInjective | src/services/drinks.service.ts:218-230 | on rows without empty optional columns, the DTO determines the row |
| DrinksService.MapAll | src/services/drinks.service.ts:29 | `drinks.map(mapDrinkToDTO)` keeps the length and maps each row in place |
| DrinksService.Filter | src/services/drinks.service.ts:67-68 | the accepted rows are exactly the table rows the `where` matches, as a sub-multiset of the table |
| DrinksService.CountIsFilterSize | src/services/drinks.service.ts:73-75 | `count({ where })` equals the number of rows `findMany({ where })` can return |
| DrinksService.SensitiveMatchIsInsensitive | src/services/drinks.service.ts:103-121 | a row the count's case-sensitive search matches is also matched by the data query's case-insensitive search |
| DrinksService.SearchCountAtMost | src/services/drinks.service.ts:114-121 | the search total never exceeds the number of rows the data query can page through |
| DrinksService.SearchTotalMissesCaseVariants | src/services/drinks.service.ts:114-121 | for a table with one "Mojito" row and the query "mojito", the page holds that row but the total is 0 |
| DrinksService.ColumnContains | src/services/drinks.service.ts:103-121 | `contains` on a nullable column: a null column never matches; with `mode: 'insensitive'` both sides are lower-cased |
| DrinksService.SearchMatch | src/services/drinks.service.ts:103-121 | the search `OR`: the name contains the query, or the description does, or an ingredient equals it |
| DrinksService.Matches | src/services/drinks.service.ts:67-75 | the `where` clauses: none, `{ category }`, and the two search clauses |
| DrinksService.Count | src/services/drinks.service.ts:73-75 | `count({ where })` tallies the rows the `where` accepts |
| DrinksService.Paginate | src/services/drinks.service.ts:28-33 | the `{ data, total, page, limit }` result, built from the data filter's page and the count filter's total |
| DrinksService.ImageOnly | src/services/drinks.service.ts:161-164 | the update `data: { imageUrl }`, with every other property absent |
| DrinksService.Insert | src/services/drinks.service.ts:23 | inserting into a newest-first sequence keeps it newest first and adds exactly that row |
| DrinksService.SortNewestFirst | src/services/drinks.service.ts:23 | `orderBy: { createdAt: 'desc' }` gives a newest-first permutation of the rows |
| DrinksService.Matching | src/services/drinks.service.ts:20-24 | the ordered rows are newest first, are exactly the matching rows, and are as many as `count` reports |
| DrinksService.Skip | src/services/drinks.service.ts:17 | `skip = (page - 1) * limit`, never negative for page and limit of at least 1 |
| DrinksService.Window | src/services/drinks.service.ts:21-22 | `skip`/`take` gives the elements from `skip` on, at most `take` of them, none past the end |
| DrinksService.ServedPagesArePrefix | src/services/drinks.service.ts:17-29 | for one state of the table, with ties ordered the same way on every page, the pages 1 to k that `findMany` returns, laid end to end, are the DTOs of the first `k * limit` ordered matches: they neither overlap nor leave gaps |
| DrinksService.WindowAfterPrefix | src/services/drinks.service.ts:17-22 | a prefix followed by the next window is the longer prefix |
| DrinksService.FindMany | src/services/drinks.service.ts:19-29 | the page holds the DTOs of the ordered matching rows from position `(page-1)*limit` on, and its size is the remaining count capped at `limit` |
| DrinksService.PageShape | src/services/drinks.service.ts:28-33 | a page echoes `page` and `limit`, carries the count query's total, and holds at most `limit` items |
| DrinksService.PageItemsMatch | src/services/drinks.service.ts:20-24 | every item on a page is the DTO of a table row the data filter accepts |
| DrinksService.PageNewestFirst | src/services/drinks.service.ts:23 | the items on a page are in non-increasing `createdAt` order |
| DrinksService.GetAllDrinks | src/services/drinks.service.ts:12-40 | echoes page and limit; the total is the size of the table; the data is the `FindMany` page of all rows, so the newest-first rows from `(page-1)*limit` on, at most `limit` of them |
| DrinksService.FilterAnyDrink | src/services/drinks.service.ts:25 | with no `where`, every row is counted |
| DrinksService.GetDrinksByCategory | src/services/drinks.service.ts:58-91 | echoes page and limit; the total is the number of rows of that category; the data is the `FindMany` page of that category's rows, so the newest-first matches from `(page-1)*limit` on, at most `limit` and at most `total` items, all of that category |
| DrinksService.SearchDrinks | src/services/drinks.service.ts:93-138 | echoes page and limit; the total is the case-sensitive count, which is at most the case-insensitive one; the data is the `FindMany` page of the case-insensitive matches, so the newest-first matches from `(page-1)*limit` on, at most `limit` items, each the DTO of a matching row |
| DrinksService.SearchNoMatch | src/services/drinks.service.ts:101-123 | a query no row matches gives an empty page with total 0 |
| DrinksService.CountNone | src/services/drinks.service.ts:114-122 | a `where` no row matches counts 0 |
| DrinksService.SearchFindsName | src/services/drinks.service.ts:105 | a row whose name contains the query, ignoring case, is among the rows the search pages through |
| DrinksService.Lookup | src/services/drinks.service.ts:44-46 | `findUnique({ where: { id } })` finds nothing exactly when no row has that id, and otherwise a row of the table with that id |
| DrinksService.GetDrinkById | src/services/drinks.service.ts:42-56 | null exactly when the id is unknown; otherwise the DTO of a table row with that id |
| DrinksService.LookupUnique | src/services/drinks.service.ts:44-48 | with unique ids, looking up a row's id finds that row |
| DrinksService.NewDrink | src/services/drinks.service.ts:142-144 | the created row carries the given fields, the new id, and equal creation and update times |
| DrinksService.ApplyUpdate | src/services/drinks.service.ts:185-188 | a partial update replaces exactly the fields present in the body, keeps id and creation time, and stamps the update time |
| DrinksService.ImageOnlyChangesImage | src/services/drinks.service.ts:161-164 | the image update changes the image URL and the update time and nothing else |
| DrinksService.ApplyUpdateIdempotent | src/services/drinks.service.ts:185-188 | applying the same update twice at the same time is the same as applying it once |
| DrinksService.Updated | src/services/drinks.service.ts:185-188 | `update({ where: { id } })` rewrites the rows with that id and leaves every other row, and every id, as it was |
| DrinksService.Deleted | src/services/drinks.service.ts:203-205 | `delete({ where: { id } })` removes exactly the rows with that id |
| DrinksService.DeletedSize | src/services/drinks.service.ts:203-205 | with unique ids, deleting an existing id removes exactly one row |
| DrinksService.DeletedNoId | src/services/drinks.service.ts:203-205 | deleting an unknown id leaves the table unchanged |
| DrinksService.DeletedUnique | src/services/drinks.service.ts:203-205 | deleting keeps ids unique |
| DrinksService.CreateThenGet | src/services/drinks.service.ts:140-154 | after a create under a fresh id, ids stay unique and fetching that id gives back the submitted name, category, ingredients and instructions, the creation time, and the description and image URL as `mapDrinkToDTO` projects them (absent when null or empty) |
| DrinksService.UpdateThenGet | src/services/drinks.service.ts:180-199 | after an update, ids stay unique and the id looks up the updated row |
| DrinksService.DeleteThenGet | src/services/drinks.service.ts:201-216 | after a delete the id is not found, and every other id answers as before |
| DrinksService.DeleteKeepsOthers | src/services/drinks.service.ts:203-205 | deleting one id does not change the lookup of any other |
| DrinksService.DrinksStore.CreateDrink | src/services/drinks.service.ts:140-154 | appends the new row, keeps ids unique, and returns its DTO |
| DrinksService.DrinksStore.UpdateDrink | src/services/drinks.service.ts:180-199 | answers exactly when the id exists, with the table updated and the DTO of the updated row; otherwise throws "Failed to update drink" and leaves the table unchanged |
| DrinksService.DrinksStore.UploadDrinkImage | src/services/drinks.service.ts:156-178 | answers exactly when the id exists, having changed only that row's image URL and update time, with the DTO of the updated row; otherwise throws "Failed to upload drink image" and leaves the table unchanged |
| DrinksService.DrinksStore.DeleteDrink | src/services/drinks.service.ts:201-216 | answers `true` exactly when the id exists, having removed exactly one row; otherwise throws "Failed to delete drink" and leaves the table unchanged |
| DrinksController.QueryText | src/controllers/drinks.controller.ts:15-16 | what `parseInt` receives for a query parameter: the text, or "undefined" when absent |
| DrinksController.PageNumber | src/controllers/drinks.controller.ts:15 | `parseInt(req.query.page)`, falling back to 1 |
| DrinksController.PageLimit | src/controllers/drinks.controller.ts:16 | `parseInt(req.query.limit)`, falling back to 10 |
| DrinksController.ValidPagination | src/controllers/drinks.controller.ts:19-25 | the pagination test: neither `page < 1` nor `limit < 1` nor `limit > 100` |
| DrinksController.PaginationOk | src/controllers/drinks.controller.ts:15-25 | the pagination test applied to the parsed page and limit parameters |
| DrinksController.MissingQuery | src/controllers/drinks.controller.ts:118 | the query is absent, empty, or empty once trimmed |
| DrinksController.HasRequiredFields | src/controllers/drinks.controller.ts:156-161 | name, category and instructions truthy and ingredients present; an empty ingredients array is truthy |
| DrinksController.ParamOr | src/controllers/drinks.controller.ts:15-16 | `parseInt(p)` falling back to the default `d` gives `d` when parsing gives `NaN` or 0, and the parsed number otherwise |
| DrinksController.ParamOrAbsent | src/controllers/drinks.controller.ts:15-16 | an absent parameter gives the default |
| DrinksController.ParamOrNumeral | src/controllers/drinks.controller.ts:15-16 | a signed decimal numeral gives its value, except 0, which gives the default |
| DrinksController.MissingQueryIff | src/controllers/drinks.controller.ts:118 | the search query is refused exactly when it is absent or all whitespace |
| DrinksController.GetAllDrinks | src/controllers/drinks.controller.ts:13-42 | the service is called exactly when page >= 1 and 1 <= limit <= 100, with the parsed values; otherwise 400 with the pagination message; 200 with the page, or 500 when the service throws |
| DrinksController.GetDrinkById | src/controllers/drinks.controller.ts:44-69 | 404 "Drink not found" exactly on a null result, 200 with the DTO exactly on a drink, 500 when the service throws |
| DrinksController.GetDrinksByCategory | src/controllers/drinks.controller.ts:71-110 | as for the listing, with the category passed through |
| DrinksController.SearchDrinks | src/controllers/drinks.controller.ts:112-149 | a missing query is refused first, then invalid pagination; the service is called exactly when both pass; 200 with the page, or 500 |
| DrinksController.CreateDrink | src/controllers/drinks.controller.ts:151-183 | 400 without calling the service exactly when name, category or instructions is absent or empty, or ingredients is absent; otherwise the body is passed on unchanged; 201 with the DTO, or 500 |
| DrinksController.UpdateDrink | src/controllers/drinks.controller.ts:185-211 | the body is passed on unchanged; 404 exactly on a null result, 200 exactly on a drink, 500 when the service throws |
| DrinksController.DeleteDrink | src/controllers/drinks.controller.ts:213-232 | 204 with no body whatever the service returns, 500 when it throws |
| DrinksController.UploadDrinkImage | src/controllers/drinks.controller.ts:234-276 | 400 without a service call exactly when no file came; otherwise the URL `/uploads/<filename>` is stored and echoed on 200; 404 on a null result; 500 when the service throws |
| DrinksController.NeverNull | src/services/drinks.service.ts:180-199 | the service's update result, seen as a nullable DTO, is never null |
| DrinksController.UpdateNeverNotFound | src/controllers/drinks.controller.ts:198-201 | fed by the service, the update and image handlers never answer 404 |
| DrinksController.GetByIdAgainstTable | src/controllers/drinks.controller.ts:54-61 | fed by the table, `getDrinkById` answers 404 exactly for an unknown id and 200 exactly for a known one |
| DrinksController.ListAgainstTable | src/controllers/drinks.controller.ts:13-42 | fed by the table, a valid listing answers 200 with at most `limit` (at most 100) items and the size of the table as total |
| DrinksController.PageZeroIsDefault | src/controllers/drinks.controller.ts:15-19 | `?page=0` reaches the service as page 1, with the default limit 10 |
| DrinksController.NegativePageRejected | src/controllers/drinks.controller.ts:15-25 | any negative page answers 400 without a service call |
| DrinksController.LimitAboveMaxRejected | src/controllers/drinks.controller.ts:16-25 | any limit above 100 answers 400 without a service call |
| DrinksController.BlankQueryCheckedFirst | src/controllers/drinks.controller.ts:118-130 | an all-whitespace query answers "Search query is required" even when the pagination is also invalid |
| UploadMiddleware.StripTrailingSlashes | src/middlewares/upload.middleware.ts:17 | only trailing slashes are removed, and the result does not end with one |
| UploadMiddleware.LastIndexOf | src/middlewares/upload.middleware.ts:17 | absent exactly when the character does not occur; otherwise an occurrence with none after it |
| UploadMiddleware.Basename | src/middlewares/upload.middleware.ts:17 | the last path segment holds no slash |
| UploadMiddleware.Extname | src/middlewares/upload.middleware.ts:17 | a non-empty extension starts with its only dot and is a proper suffix of the last path segment |
| UploadMiddleware.ExtnameOfName | src/middlewares/upload.middleware.ts:17 | `path.extname("stem.ext")` is `".ext"` |
| UploadMiddleware.ExtnameOfDotFile | src/middlewares/upload.middleware.ts:17 | a dot file such as `.png` has no extension |
| UploadMiddleware.AllowedTest | src/middlewares/upload.middleware.ts:15-19 | the `allowedTypes` regular expression test: one of jpeg, jpg, png, gif or webp occurs somewhere in `s` |
| UploadMiddleware.FileFilter | src/middlewares/upload.middleware.ts:10-26 | accepts exactly when both the sent MIME type and the lower-cased extension contain one of jpeg, jpg, png, gif or webp; otherwise rejects with "Only image files are allowed!" |
| UploadMiddleware.NoExtensionRejected | src/middlewares/upload.middleware.ts:16-25 | a name without an extension is refused whatever the MIME type |
| UploadMiddleware.NotAllowed | src/middlewares/upload.middleware.ts:15-19 | a string without the letters j, p, f and w matches none of the image types |
| UploadMiddleware.ExtensionCaseIgnored | src/middlewares/upload.middleware.ts:16-18 | names differing only in the case of their extension get the same verdict |
| UploadMiddleware.UpperCaseMimeTypeRejected | src/middlewares/upload.middleware.ts:19-24 | the MIME type is tested as sent: `image/PNG` is refused |
| UploadMiddleware.DotFileRejected | src/middlewares/upload.middleware.ts:16-24 | a file named `.png` is refused |
| UploadMiddleware.ExtensionContainingTypeAccepted | src/middlewares/upload.middleware.ts:15-22 | the test is unanchored: any extension containing an image type passes when the MIME type does |
| UploadMiddleware.IsHandledLimit | src/middlewares/upload.middleware.ts:62-77 | a multer error whose code is `LIMIT_FILE_SIZE` or `LIMIT_FILE_COUNT` |
| UploadMiddleware.HandleUploadError | src/middlewares/upload.middleware.ts:56-89 | answers 400 exactly for the size and count limit codes of a multer error or the filter's message, with the matching body; forwards every other error unchanged |
| UploadMiddleware.FilterRejectionAnswered | src/middlewares/upload.middleware.ts:24-85 | a file the filter refuses ends as a 400 "Invalid file type" answer |
| UploadMiddleware.OtherErrorsForwarded | src/middlewares/upload.middleware.ts:87-88 | any other error is passed to `next` unchanged |
| ErrorMiddleware.NewCustomError | src/middlewares/error.middleware.ts:10-25 | omitted arguments default to status 500 and operational `true`; the message and the captured stack are kept |
| ErrorMiddleware.ErrorHandler | src/middlewares/error.middleware.ts:27-60 | the sent status equals the body's `statusCode`: the error's code when present and non-zero, else 500; the body always says "Something went wrong!"; message (defaulted when empty) and stack only in development |
| ErrorMiddleware.EnvironmentOnlyAddsDetails | src/middlewares/error.middleware.ts:53-57 | development and production answer with the same status and differ only in the details |
| ErrorMiddleware.CustomErrorStatus | src/middlewares/error.middleware.ts:14-33 | a `CustomError` without a status answers 500, one with a non-zero status answers that status |
| ErrorMiddleware.NotFoundHandler | src/middlewares/error.middleware.ts:62-74 | 404 "Route not found" naming the requested URL and method |
| AuthController.AnswerIdentity | src/controllers/auth.controller.ts:5-36 | 200 with the ids exactly when the identity read succeeds and has a non-empty user id; 401 exactly when it has none; 500 exactly when the read throws |
| AuthController.GetCurrentUser | src/controllers/auth.controller.ts:5-36 | as above, with "No authenticated user found" and "Failed to get current user" |
| AuthController.GetUserProfile | src/controllers/auth.controller.ts:38-68 | as above, with "Authentication required" and "Failed to get user profile" |
| AuthController.ProfileIsCurrentUser | src/controllers/auth.controller.ts:17-28 | both handlers answer with the same status for every identity, and with the same body when they succeed |
| AuthController.EmptyUserIdUnauthorized | src/controllers/auth.controller.ts:9-14 | an empty user id counts as no user |

## Left out

- Logging: every `logger` call is left out, because it has no effect on responses or state.
- Express and multer plumbing is not modelled, only what it hands to the handlers. This covers `req`/`res` objects, `next`, the routing tables and middleware order.
- Non-string or array values in a query string are not modelled; a query parameter is a string or absent.
- JSON body fields are modelled as the DTO types (strings, a string list, absent). Values of other JSON types, `null` in update bodies, and unknown extra fields are not modelled.
- JsStrings.Lower: lower-cases ASCII letters only, whereas `toLowerCase` is full Unicode. No non-ASCII character lower-cases to a sequence containing any of jpeg, jpg, png, gif or webp, so the filter's verdict is the same. Prisma's case-insensitive `contains` on non-ASCII text is only approximated.
- JsStrings.ParseInt: returns an exact integer, whereas JavaScript returns a double. Numerals beyond 2^53 lose precision, and above about 1.8e308 they become Infinity; the model does not capture either.
- Prisma and PostgreSQL internals are not modelled. This covers connection failures, constraint errors other than a missing row, and the order of rows with equal `createdAt`, which the model keeps in table order.
- Database failures on reads are not modelled by the service functions: they return values. The controllers still take an `Outcome`, so their 500 paths are modelled.
- Id generation and the clock are parameters (`id`, `now`) of the write methods. DrinksService.DrinksStore.CreateDrink requires the id to be fresh, standing for the database's generator.
- That `@updatedAt` restamps `updatedAt` on every update is assumed, since the Prisma schema is not part of this model.
- Timestamps are integers; their ISO-8601 rendering in `mapDrinkToDTO` is not modelled.
- Concurrency is not modelled. The two queries inside `Promise.all` are modelled as reads of one snapshot, and the interleaving of requests is left out.
- The middlewares `uploadToMemory`, `uploadSingle` and `uploadMultiple` are represented only by their constants (`MAX_FILE_SIZE`, `SINGLE_FIELD`, `MULTIPLE_FIELD`, `MAX_FILES`). Multer enforces these limits itself, in code outside this model.
- `uploadDrinkImage` reads `file.filename`, which memory storage does not set. The model treats the file name as given.
- Express's rejection of out-of-range status codes in `res.status` is not modelled.
- `isDevelopment` is a parameter. The environment configuration it comes from is not part of this model, and neither is the identity provider behind `getAuth`, whose result is a parameter.
- The cloud upload controller, the cloud storage service, the health controller, configuration, server start-up and shutdown, the route files and the seed script are not part of this model.
