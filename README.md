# Bootcamp directory API: list queries and error replies

This project models two Express middlewares of a REST API for coding
bootcamps and proves properties of them.

- `advancedResults(model, populate)` serves every list endpoint. It copies the
  query string and deletes the control parameters `select`, `sort`, `page` and
  `limit`. It turns the remaining parameters into a MongoDB filter by writing
  `$` before every whole word `gt`, `gte`, `lt`, `lte` or `in`. It adds the
  projection and the sort (commas become spaces, and the default sort is
  `-createdAt`), then the relation to populate. It computes the page window
  from `parseInt` of `page` (default 1) and `limit` (default 25). It counts the
  collection, awaits the query, builds the `next`/`prev` links and leaves
  `{success, count, pagination, data}` in `res.advancedResults`.
- `errorHandler(err, req, res, next)` copies the error. A `CastError` becomes a
  404 "resource not found with id of …". A duplicate key (code 11000) becomes a
  400 "Duplicate field value entered". A `ValidationError` becomes a 400 with
  the list of its field messages. A later rule overrides an earlier one. The
  reply is `{success: false, error}` with status `statusCode || 500` and
  message `message || "Server error"`.

Files:

- `words.dfy` (module `Words`) holds the operator rewrite. It is modelled run
  by run as `Rewrite`. Beside it is an independent reference, `MarkedFrom`,
  that writes `$` at each index where `\b(gt|gte|lt|lte|in)\b` matches.
- `jstext.dfy` (module `JsText`) holds `parseInt(text, 10)` and
  `text.split(sep).join(other)`.
- `http.dfy` (module `Http`) holds the query values, the result envelope, the
  error body, and the `Request`/`Response` objects.
- `advanced_results.dfy` (module `AdvancedResults`) holds the list middleware.
  The pure steps are functions. The `delete` loop, the query-builder chain and
  the pagination object are methods. The response is a class updated in place.
- `error_handler.dfy` (module `ErrorHandler`) holds the error handler. The
  reference `Classify` takes the last rule that applies. `HandleError` runs the
  source's `if` cascade on a local record and writes the response.
- `wrappers.dfy` (module `Wrappers`) holds `Option` and `Result`.

The database is a `Collection` value. Its documents are a sequence. Refusing a
filter it cannot cast, matching a filter, ordering by a sort string, projecting
and populating are functions it carries. The model assumes only that they are
total; which filters are refused, and what the others compute, is left open.

`total` is `model.countDocuments()` with no filter, so it is the size of the
whole collection, not of the filtered set. `NextLinkCountsWholeCollection`
shows the effect: for `?name=none` over 30 documents of which none has that
name, page 1 is empty and still has a `next` link.

## Model

| member | source | states |
|---|---|---|
| AdvancedResults.RemoveControlKeys | middleware/advancedResults.js:5-11 | The `delete` loop on the copy leaves exactly the query's keys other than `select`, `sort`, `page` and `limit`, each with its original value. The request's own query is a separate value and is not touched. |
| AdvancedResults.WithoutControlKeys | middleware/advancedResults.js:5-11 | A key is in the result iff it is in the query and is not a control key. Every kept key keeps its value. |
| AdvancedResults.RewriteParam | middleware/advancedResults.js:14-20 | Applied to keys and texts at every depth: a text stays a text and an object stays an object. Each key `k` becomes `Rewrite(k)` with its value rewritten the same way. Every key of the result is the rewrite of exactly one original key, found again by `Restore`. |
| AdvancedResults.FilterHasNoControlKey | middleware/advancedResults.js:5-20 | No control parameter is ever a key of the filter handed to `find`, whatever the query holds. |
| AdvancedResults.FilterKeepsCandidates | middleware/advancedResults.js:5-20 | Every other parameter reaches the filter under its rewritten name, with its value rewritten. |
| AdvancedResults.OnlyControlKeysEmptyFilter | middleware/advancedResults.js:5-20 | A query made only of control parameters gives the empty filter. |
| AdvancedResults.Find | middleware/advancedResults.js:20 | `find(filter)` starts a query with that filter, no projection, sort or population, and no window. |
| AdvancedResults.FieldList | middleware/advancedResults.js:24 | `split(",").join(" ")` has the same length as its input and replaces each comma with a space, changing no other character. |
| AdvancedResults.SelectClause | middleware/advancedResults.js:22-26 | A falsy `select` gives no projection. A text `select` gives its field list. A nested `select` fails, because `split` is not a function of an object. |
| AdvancedResults.SortClause | middleware/advancedResults.js:28-34 | A falsy `sort` (absent or empty) gives exactly `-createdAt`. A text `sort` gives its field list. A nested `sort` fails the same way as a nested `select`. |
| AdvancedResults.ParamString | middleware/advancedResults.js:41-42 | The text `parseInt` reads: a text parameter is itself. An absent parameter (`"undefined"`) or a nested one (`"[object Object]"`) holds no digit. |
| AdvancedResults.ParseOr | middleware/advancedResults.js:41-42 | `parseInt(v, 10) or d` is the fallback when the parse is NaN or 0. Otherwise it is the parsed value, negative values included. |
| AdvancedResults.PageNumber | middleware/advancedResults.js:41 | The page is never 0. |
| AdvancedResults.PageLimit | middleware/advancedResults.js:42 | The limit is never 0. |
| AdvancedResults.MissingOrNestedUsesDefault | middleware/advancedResults.js:41-42 | An absent parameter (`"undefined"`) or a nested one (`"[object Object]"`) parses to NaN and falls back to the default. |
| AdvancedResults.DecimalIsKept | middleware/advancedResults.js:41-42 | A parameter written as a non-zero decimal, possibly negative and followed by non-digit text, is that number. |
| AdvancedResults.PageWindow | middleware/advancedResults.js:43-44 | `endIndex - startIndex == limit`. With a positive page and limit, `0 <= startIndex < endIndex`. |
| AdvancedResults.Filter | middleware/advancedResults.js:14-20 | The object handed to `find`: every parameter other than a control one is there under its rewritten name, with its value rewritten. Every key of it is the rewrite of such a parameter, found again by `Restore`. |
| AdvancedResults.Matching | middleware/advancedResults.js:50 | The documents kept by the filter: each matching document occurs as often as in the input, and no other document occurs. |
| AdvancedResults.Slice | middleware/advancedResults.js:47 | `skip(n).limit(m)` fails exactly when `n < 0`. Otherwise it returns as many documents as remain, capped by the absolute value of `m` (all remaining when `m == 0`); the `i`-th being the `n+i`-th of the ordered input. |
| AdvancedResults.Execute | middleware/advancedResults.js:47-50 | Awaiting the query fails exactly when the collection refuses the filter (a value the schema cannot cast), with `CastFailure`, or else when the skip is negative, with `NegativeSkip`. Otherwise it returns as many documents as `Slice` keeps of the sorted matches, and the `i`-th is the sorted match at `skip + i`, projected then populated. With a positive limit it never returns more than the limit. |
| AdvancedResults.WholeResultIsEveryMatch | middleware/advancedResults.js:20-50 | For a filter the collection accepts, with skip 0, limit 0, no projection or population, and a sort that only reorders, the result holds every matching document of the collection as often as it occurs there, and nothing else. |
| AdvancedResults.Links | middleware/advancedResults.js:53-67 | `next` is present iff `endIndex < total`, and `prev` iff `startIndex > 0`. They are `{page+1, limit}` and `{page-1, limit}`. |
| AdvancedResults.BuildPagination | middleware/advancedResults.js:53-67 | Starting from `{}` and adding `next`, then `prev`, when each applies gives exactly `Links`. |
| AdvancedResults.LinksForPositivePages | middleware/advancedResults.js:43-67 | With a positive page and limit, `prev` is present iff `page > 1`, and `next` iff `page*limit < total`. |
| AdvancedResults.Plan | middleware/advancedResults.js:5-47 | The built query fails iff `select` or `sort` is nested. Otherwise it holds the filter, both clauses, the population when `populate` is truthy, `skip = (page-1)*limit` and the parsed limit. |
| AdvancedResults.Run | middleware/advancedResults.js:1-76 | The envelope has `success = true` and `count` equal to the length of `data`. Its links are `Links(page, limit, total)` with `total` the size of the whole collection. With a positive limit, `count <= limit`. The run fails iff `select` or `sort` is nested, the collection refuses the filter, or the start index is negative. |
| AdvancedResults.RunSucceeds | middleware/advancedResults.js:69-74 | Once the query is built and awaited, the envelope is `success = true`, the number of results, the links and the results. |
| AdvancedResults.RunFails | middleware/advancedResults.js:20-50 | A run stops with the first fault met while building the query or awaiting it. |
| AdvancedResults.PrepareQuery | middleware/advancedResults.js:5-47 | The step-by-step builder chain produces exactly `Plan`, together with the page, the limit and the window it used. |
| AdvancedResults.Middleware | middleware/advancedResults.js:1-76 | On success `res.advancedResults` is the envelope of `Run`. On a fault nothing is stored and the fault is returned. Only `res.advancedResults` is modified, so the request is left as it was. |
| AdvancedResults.SecondPageOfTwentyFive | middleware/advancedResults.js:43-67 | `page=2&limit=10` over 25 documents gives the window 10..20 and links to pages 3 and 1. Page 1 of 25 over 25 documents has no links. |
| AdvancedResults.NothingMatches | middleware/advancedResults.js:20 | If no document matches, the filter keeps nothing. |
| AdvancedResults.NextLinkCountsWholeCollection | middleware/advancedResults.js:45-60 | For the query `?name=none` over 30 documents of which none matches its filter, the default first page is empty and still links to page 2, because `total` counts the whole collection. |
| Words.Rewrite | middleware/advancedResults.js:17 | Has no contract of its own. `RewriteIsMarked` proves it equal to the reference, `RestoreRewrite` proves the round trip, and `RewriteAddsOnlyDollar` proves it only adds `$` characters. |
| Words.RewriteAddsOnlyDollar | middleware/advancedResults.js:17 | Every character other than `$` occurs in the output exactly as often as in the input. |
| Words.RewriteIsMarked | middleware/advancedResults.js:17 | The run-by-run rewrite writes `$` before exactly the indexes where the pattern `\b` followed by one of `gt`, `gte`, `lt`, `lte`, `in` followed by `\b` matches, and copies every character. |
| Words.MatchAtRun | middleware/advancedResults.js:17 | At the start of a maximal word run, the pattern matches iff the whole run is one of the five words. So `gte` matches as itself and never as `gt`. |
| Words.RestoreRewrite | middleware/advancedResults.js:17 | Deleting the inserted `$` characters gives back the input. |
| Words.RewriteInjective | middleware/advancedResults.js:17 | Different inputs give different outputs, so two keys of the query never rewrite to the same filter key and no entry is lost. `Restore` gives back the input of every rewrite. |
| Words.RewriteLength | middleware/advancedResults.js:17 | The output is as long as the input plus the number of matches. |
| Words.NoMatchUnchanged | middleware/advancedResults.js:17 | Text in which the pattern matches nowhere comes out unchanged. |
| Words.SingleRun | middleware/advancedResults.js:17 | A lone word run gets a `$` iff it is a comparison word. |
| Words.LongerRunUntouched | middleware/advancedResults.js:17 | `gt16` and `length` are left alone. |
| Words.WholeRunRewritten | middleware/advancedResults.js:17 | `gte` becomes `$gte`. |
| Words.RewriteStartsWithNoOperator | middleware/advancedResults.js:17 | No rewrite output starts with a bare comparison word. |
| Words.MarkedLength | middleware/advancedResults.js:17 | The reference rewrite of a suffix is longer by the number of matches in it. |
| JsText.TrimStart | middleware/advancedResults.js:41-42 | Exactly the leading white space is dropped: the result is a suffix of the input that is empty or starts with a non-space, and every character cut off is white space. |
| JsText.ParseInt | middleware/advancedResults.js:41-42 | After the leading white space, the result is a number iff a digit comes next, or a sign and then a digit. A negative result comes only after a `-`. |
| JsText.ParseSigned | middleware/advancedResults.js:41-42 | The text is a number iff it starts with a digit, or with a sign followed by a digit. After a `-` the value is at most 0, otherwise at least 0. |
| JsText.ParseShow | middleware/advancedResults.js:41-42 | `parseInt` reads back the decimal rendering of any integer, after any white space and before any text that does not start with a digit. |
| JsText.ParseShowExact | middleware/advancedResults.js:41-42 | The same without leading white space. |
| JsText.ParseNoDigits | middleware/advancedResults.js:41-42 | Text with no digit anywhere parses to NaN. |
| JsText.JoinSplit | middleware/advancedResults.js:30 | Joining the pieces of a split on `a` with `b` replaces each `a` with `b` and changes nothing else. |
| JsText.SplitPiecesHaveNoSeparator | middleware/advancedResults.js:30 | No piece of a split contains the separator. |
| JsText.Split | middleware/advancedResults.js:30 | A split always has at least one piece. |
| JsText.Join | middleware/advancedResults.js:24 | The joined text is as long as the pieces together plus one separator between each two. |
| JsText.JoinCountsSeparators | middleware/advancedResults.js:24 | Joining `n` pieces that do not hold the separator writes it exactly `n - 1` times. |
| Http.Get | middleware/advancedResults.js:23 | `req.query[key]` is present iff the key is in the query, and it is that key's value. |
| ErrorHandler.Copy | middleware/error.js:4-6 | The copy keeps the error's status and carries its own message as a text. |
| ErrorHandler.MessagesOf | middleware/error.js:25 | One message per field error, in order, each that entry's `message`. |
| ErrorHandler.Replacements | middleware/error.js:12-28 | The three rules in source order. The first applies iff the name is `CastError`, the second iff the code is 11000, the third iff the name is `ValidationError`. |
| ErrorHandler.LastApplied | middleware/error.js:12-28 | With no rule applying, the copy is kept. Otherwise the result is the replacement of a rule after which no rule applies, so the later rule wins. |
| ErrorHandler.Respond | middleware/error.js:30-33 | `success` is false. The status is the record's non-zero status, else 500. The message is the record's, else "Server error" when it is empty. |
| ErrorHandler.Classify | middleware/error.js:3-34 | Every reply has `success: false` and a non-zero status. |
| ErrorHandler.HandleError | middleware/error.js:3-34 | The copy, the `if` cascade and the final `res.status(...).json(...)` set the status and the body to exactly `Classify(err)`. Only those two fields of the response change. |
| ErrorHandler.CastErrorIsNotFound | middleware/error.js:12-15 | A `CastError` that is not also a duplicate key gives 404 with "resource not found with id of " followed by the id. |
| ErrorHandler.DuplicateKeyIsBadRequest | middleware/error.js:18-21 | Code 11000 gives 400 "Duplicate field value entered" unless the error is a `ValidationError`. This holds even for a `CastError`, so the duplicate key wins over it. |
| ErrorHandler.ValidationErrorListsMessages | middleware/error.js:24-28 | A `ValidationError` gives 400 with its field messages in order, whatever its code. It wins over both earlier rules. |
| ErrorHandler.UnmatchedKeepsOwnFields | middleware/error.js:4-33 | An error no rule applies to answers with its own status if that is non-zero (else 500), and with its own message if that is non-empty (else "Server error"). |

## Left out

- JSON round trip: the source rewrites the `JSON.stringify` text and parses it
  back. The model applies the same word rule to every key and text of the
  parsed query, so JSON punctuation and quoting are not modelled. One
  difference follows from this. An escape such as `\n` inside a value puts the
  letter `n` next to the following text in the JSON string, so `"a\nin"` has
  no whole word `in` there. The model sees the newline itself and rewrites
  `in`.
- Array-valued query parameters (`a[]=1&a[]=2`) are not modelled. A parameter
  is a text or a nested object.
- JavaScript numbers are floating point. The model parses exact integers and
  computes `startIndex = (page - 1) * limit` and `endIndex = page * limit`
  exactly. The precision lost above 2^53, by `parseInt` on very long digit
  strings and by these two products, is not modelled.
  Prefixes `0x` are read as the digit `0`, as with radix 10.
- What the database does is not modelled. The matching of a filter, MongoDB's
  operators, the parsing of sort and projection strings, and how `populate`
  resolves relations are functions carried by `Collection`.
- `countDocuments()` is taken to be the number of documents in the collection.
- Three database behaviours are assumptions. A filter with a value the schema
  cannot cast (`?_id=1`, `?averageCost[lte]=abc`) is refused, and the cast
  comes before the window, so the run ends with `CastFailure`. Which filters
  are refused is left to `Collection.refuses`. A negative `skip` is refused:
  the run ends with `NegativeSkip`. A negative `limit` takes its absolute
  value and 0 means no limit.
- The `async` sequencing and `next()` are not modelled. A thrown error becomes
  a `Fault` returned by `Middleware`: `TypeError` from `split` on a nested
  object, a filter the schema cannot cast, and a negative skip. How
  the error handler would then answer a refused cast is not connected to
  these faults.
- `console.log(err.stack)` is not modelled.
- `utils/errorResonse` is not part of this model. It is taken to set
  `message` and `statusCode`.
- ErrorHandler.Respond: a validation error's message list is kept as a list.
  How the `ErrorResponse` constructor would stringify it is not modelled, so
  the "Server error" fallback is applied to text messages only.
- Error fields other than `name`, `code`, `value`, `errors`, `statusCode` and
  `message` are not modelled. A non-numeric `statusCode` is not modelled
  either, so its truthiness is "present and non-zero".
- The routes, controllers, seeder and server that surround the two
  middlewares are not part of this model.
