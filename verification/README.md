# Shipping export of Stripe customers and subscriptions, in Dafny

This project models the logic core of a small Stripe dashboard that lists customers and
subscriptions page by page and exports them to CSV for shipping labels:

- **Name splitting** (`Names`): `splitName` turns a free-text shipping name into a first
  name and a last name.
- **Row projection** (`Rows`): `getCsvRowFromShipping` and `getCsvRowFromAddress` turn a
  loosely-typed Stripe shipping record or address into the seven columns first name, last
  name, street, postal code, city, state and country. The street is `line1, line2`. The
  city becomes `city state` only for country `"US"` with both present.
- **One-line address** (`AddressFormat`): `formatShippingAddress`. It appears as three
  identical copies, and one definition models all of them.
- **CSV encoding** (`Csv`, `Export`): `escapeCsvValue`, the row and line assembly of
  `exportSubscriptionsToCsv` and `exportCustomersToCsv`, and a decoder for the same dialect.
  The decoder is used to prove that the encoding loses nothing.
- **Row highlight** (`Highlight`): `getRowHighlight`, a three-way classification of the
  subscription status.
- **Pagination** (`Pagination`): the list-request parameters, the `getNextPageParam` cursor
  rule, the sequence of fetches that "Load more" drives, and the flattening of pages.
- **Export button** (`ExportButton`): the count it displays, when it is offered, and what
  it exports.

Every `string | null | undefined` field is an `Option<string>`. JavaScript truthiness is
`Records.Truthy`, and `x || ""` is `Records.OrEmpty`. JavaScript's `\s` and
`String.prototype.trim` use `Text.IsSpace`. This is the exact ECMAScript set of white-space
and line-terminator code points. The network request is a function parameter (`fetch` /
`list`), and the number of "Load more" presses is an input.

In these respects the model follows the code, where a reader might expect otherwise:
- only `"US"` merges city and state, not a wider set of countries;
- no diacritics are stripped;
- a subscription whose customer was not expanded is not rejected; it exports a blank row;
- records are separated by `"\n"`, not CRLF;
- a lone `"\r"` does not cause quoting.

## Model

| member | source | states |
|---|---|---|
| `Names.SplitName` | src/features/export-csv/api/export-subscriptions-csv.ts:9-15 | an absent or empty name gives `("", "")` |
| `Names.SplitNameIsWords` | src/features/export-csv/api/export-subscriptions-csv.ts:11-14 | the split agrees with the whitespace-separated words of the name: no word gives `("", "")`, one word gives `(word, "")`, more give the first word and the rest joined by single spaces |
| `Names.WhitespaceNameIsEmpty` | src/features/export-csv/api/export-subscriptions-csv.ts:10-13 | a name made only of whitespace gives `("", "")` (trim leaves `""`, whose split is one empty piece) |
| `Names.SingleWordName` | src/features/export-csv/api/export-subscriptions-csv.ts:13 | a name that is one word, possibly with whitespace around it, gives `(word, "")` |
| `Names.MultiWordName` | src/features/export-csv/api/export-subscriptions-csv.ts:11-14 | with two or more words the first name is one non-empty whitespace-free word, and `first + " " + last` is the name's words joined by single spaces |
| `Text.SplitTrimmed` | src/features/export-csv/api/export-subscriptions-csv.ts:11 | `trim().split(/\s+/)` yields exactly the words of the string, or `[""]` when it has none |
| `Records.ShippingOf` | src/features/export-csv/api/export-subscriptions-csv.ts:110-111 | an expanded customer yields its shipping; a bare customer id has no shipping |
| `Rows.Street` | src/features/export-csv/api/export-subscriptions-csv.ts:58-61 | the street is `line1` without `line2`, `line2` without `line1`, `line1, line2` with both, and empty exactly when both are empty |
| `Rows.City` | src/features/export-csv/api/export-subscriptions-csv.ts:50-55 | the city column differs from the raw city exactly when the country is `"US"` and city and state are both non-empty, and then it is `city state` |
| `Rows.CsvRowFromShipping` | src/features/export-csv/api/export-subscriptions-csv.ts:41-72 | always seven columns; the first two are the split shipping name even without an address; without an address the other five are empty |
| `Rows.CsvRowFromAddress` | src/features/export-csv/api/export-csv.ts:8-41 | always seven columns with empty name columns; an absent address gives seven empty strings |
| `Rows.CityAndStateColumns` | src/features/export-csv/api/export-csv.ts:19-24 | the state column is always the raw state; the city column changes exactly for US addresses with city and state; both row builders agree on these columns |
| `Rows.RowBuildersAgree` | src/features/export-csv/api/export-csv.ts:27-40 | the two row builders produce the same street, postal code, city, state and country columns |
| `AddressFormat.CityStatePostal` | src/features/export-csv/api/export-csv.ts:71-74 | the city/state/postal group is empty exactly when all three are empty |
| `AddressFormat.FormatShippingAddress` | src/features/export-csv/api/export-csv.ts:63-77 | `""` without shipping or address, and `""` exactly when all six address fields are empty |
| `AddressFormat.FormatSegmentsRoundTrip` | src/features/subscriptions/components/subscriptions-list.tsx:39-51 | when no field contains the bar character, splitting the one-line address at the bar separator gives back exactly its non-empty segments in the order line 1, line 2, group, country |
| `AddressFormat.CityStatePostalRoundTrip` | src/features/customers/components/customers-list.tsx:31-34 | when no member contains `,`, splitting the group at `", "` gives back its non-empty members in the order city, state, postal code |
| `AddressFormat.FormatEnds` | src/features/customers/components/customers-list.tsx:28-36 | a present line 1 opens the one-line address and a present country closes it |
| `Csv.EscapeValue` | src/features/export-csv/api/export-subscriptions-csv.ts:75-86 | absent gives `""`; a value without comma, quote or line feed is unchanged; otherwise it is wrapped in quotes around the value with each quote doubled |
| `Csv.LoneCarriageReturn` | src/features/export-csv/api/export-subscriptions-csv.ts:78-84 | every value that holds a carriage return but no comma, double quote or line feed is written unquoted, and the line-feed dialect's reader reads it back unchanged |
| `Csv.EscapeRoundTrip` | src/features/export-csv/api/export-csv.ts:80-93 | a reader for this line-feed dialect, which treats a carriage return as data, reads the escaped value back as the original (absent reads as `""`) |
| `Csv.RecordRoundTrip` | src/features/export-csv/api/export-subscriptions-csv.ts:118 | a line of escaped values joined by commas decodes to those values, whatever they contain, when read by the line-feed dialect's reader, which treats a carriage return as data |
| `Csv.DocumentRoundTrip` | src/features/export-csv/api/export-subscriptions-csv.ts:116-119 | lines joined by line feeds decode to the rows they came from, one record per row |
| `Csv.UnescapedHeaders` | src/features/export-csv/api/export-subscriptions-csv.ts:117 | joining headers without escaping is harmless when none needs quoting |
| `Export.SubscriptionRow` | src/features/export-csv/api/export-subscriptions-csv.ts:109-113 | every subscription row has as many cells as there are headers, and an unexpanded customer gives only empty cells |
| `Export.ExportSubscriptionsCsv` | src/features/export-csv/api/export-subscriptions-csv.ts:93-119 | the document decodes to the seven headers and then, for every subscription in order and whatever its status, its shipping row |
| `Export.ExportCustomersCsv` | src/features/export-csv/api/export-csv.ts:100-133 | the document decodes to the seven headers and then, for every customer in order, email, name, shipping name, one-line address, carrier, tracking number and phone, with absent values as `""` |
| `Export.UnexpandedCustomerGivesBlankRow` | src/features/export-csv/api/export-subscriptions-csv.ts:110-112 | a subscription whose customer is a bare id is not rejected; it exports a row of seven empty cells |
| `Highlight.RowHighlight` | src/features/subscriptions/components/subscriptions-list.tsx:54-70 | yellow exactly for `past_due`, red exactly for `canceled`, `incomplete`, `incomplete_expired` and `unpaid`, no highlight exactly for `active`, `trialing` and `paused` |
| `Highlight.StatusClassesPartition` | src/features/subscriptions/components/subscriptions-list.tsx:56-69 | the three status classes are disjoint and cover every status |
| `Pagination.SubscriptionParams` | src/features/subscriptions/api/get-subscriptions.ts:11-20 | `starting_after` is set exactly when the page parameter is non-empty, and then to it; limit 100, customers expanded, status `all` |
| `Pagination.CustomerParams` | src/features/customers/api/get-customers.ts:9-16 | `starting_after` is set exactly when the page parameter is non-empty, and then to it; limit 100 |
| `Pagination.SubscriptionsNextPageParam` | src/features/subscriptions/api/get-subscriptions.ts:30-35 | a next cursor exists exactly when the page has more and is non-empty, and it is the last subscription's id |
| `Pagination.CustomersNextPageParam` | src/features/customers/api/get-customers.ts:26-31 | a next cursor exists exactly when the page has more and is non-empty, and it is the last customer's id |
| `Pagination.LoadPages` | src/features/subscriptions/components/subscriptions-list.tsx:152-164 | the first fetch has no cursor; each later fetch uses the previous page's cursor; every page but the last had more and was non-empty; at most one fetch per press; fetching stops for good once a page yields no cursor |
| `Pagination.LoadSubscriptionPages` | src/features/subscriptions/api/get-subscriptions.ts:25-37 | the first request has no `starting_after`; each later request starts after the last subscription of the previous, non-empty page |
| `Pagination.LoadCustomerPages` | src/features/customers/api/get-customers.ts:21-33 | the first request has no `starting_after`; each later request starts after the last customer of the previous, non-empty page |
| `Pagination.Flatten` | src/features/subscriptions/components/subscriptions-list.tsx:74-76 | the flattened list is as long as all pages together |
| `Pagination.FlattenIndex` | src/features/customers/components/customers-list.tsx:41 | flattening keeps order: item `j` of page `i` comes right after the items of the earlier pages |
| `ExportButton.CountNotCanceled` | src/features/export-csv/components/export-csv-button.tsx:21 | the count is at most the number of subscriptions; it equals that number exactly when none is canceled, and is zero exactly when all are canceled |
| `ExportButton.ButtonView` | src/features/export-csv/components/export-csv-button.tsx:18-32 | the button is offered exactly for a loaded non-empty list (otherwise the "No customers to export" message); its count is the number of subscriptions that are not canceled, never exceeds the list length, and equals it exactly when nothing is canceled |
| `ExportButton.HandleExportCsv` | src/features/export-csv/components/export-csv-button.tsx:11-15 | a click exports once the list has loaded; data line `k` of the file is the shipping row of subscription `k` of the whole flattened list, canceled ones included, one line each and in order |
| `ExportButton.CanceledSubscriptionsAreExported` | src/features/export-csv/components/export-csv-button.tsx:11-27 | as written, one canceled subscription is enough for the file to have more data lines than the button announces |
| `ExportButton.IntendedExportCsv` | src/features/export-csv/components/export-csv-button.tsx:21-27 | the export the label and note describe: data line `k` is the shipping row of the `k`-th subscription that is not canceled, in list order, and there are exactly as many lines as such subscriptions |
| `ExportButton.NotCanceledIsFilter` | src/features/export-csv/components/export-csv-button.tsx:21 | the not-canceled list is `filter((s) => s.status !== "canceled")`: it distributes over concatenation, keeps one subscription exactly when it is not canceled, and keeps the empty list empty, which fixes it on every list |
| `ExportButton.IntendedExportMatchesCount` | src/features/export-csv/components/export-csv-button.tsx:18-27 | with the intended export, the announced count equals the number of exported data lines |

## Findings

| source | as written | input that shows it | evidently intended | confidence | as-written member | corrected member |
|---|---|---|---|---|---|---|
| src/features/export-csv/components/export-csv-button.tsx:11-27 | the label counts only subscriptions that are not canceled, and the note says canceled ones are not included, but `handleExportCsv` exports the whole flattened list | one loaded page holding a single canceled subscription: the label says "Export 0", and the file has one data line | export only the subscriptions that are not canceled, so the file matches the label | medium, not executed | `ExportButton.CanceledSubscriptionsAreExported` | `ExportButton.IntendedExportCsv` |

`ExportButton.HandleExportCsv` keeps the as-written behaviour. `ExportButton.IntendedExportCsv`
and `ExportButton.IntendedExportMatchesCount` state what the label promises.

## Left out

- Csv.EscapeRoundTrip: the round trip holds against a reader that ends records only at a line feed. `escapeCsvValue` writes a value holding a lone `"\r"` unquoted (`Csv.LoneCarriageReturn`), so an RFC 4180 reader that ends records at CRLF or at a lone carriage return could split such a value. The model states what the code does and promises nothing for those readers.
- Blob creation, the hidden anchor, `URL.createObjectURL`/`revokeObjectURL` and the filename
  parameter: these are browser side effects. The model stops at the document text.
- The Stripe client, the network calls and `useInfiniteQuery` caching. A list request is a
  total function parameter, so fetch failures, retries and latency are not modelled.
- `src/lib/stripe.ts`: localStorage, `JSON.parse` and client construction.
- All React/Chakra rendering, including the `"-"` placeholders, tooltips and the clipboard
  button. The export button is reduced to its count and its offer/message choice.
- Routing, login and the localStorage auth gate: thin wrappers over libraries.
- JavaScript strings are UTF-16 code units; here they are sequences of Unicode scalar values.
  Every operation modelled compares single characters, and all `\s` characters are in the
  Basic Multilingual Plane, so nothing modelled depends on this.
