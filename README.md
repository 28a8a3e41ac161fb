# Kiranawala admin panel: a verified model of its client-side logic

The Kiranawala admin panel is a Next.js dashboard for a neighbourhood grocery
store. Most of it is screens and calls to a hosted backend. Some of its logic
is self-contained, and this project models that logic in Dafny and proves
what it promises:

- **Phone numbers** (`Phone`): display formatting, normalisation to the
  `+91XXXXXXXXXX` form of ITU-T E.164, and validation of Indian mobile numbers.
- **CSV export** (`CsvExport`): `convertToCSV`, the report layout of
  `exportReportToCSV`, and the report's file name.
- **Analytics** (`Analytics`): headline totals, top category, per-day trend
  series with gap filling, top products and the category breakdown.
- **Customers** (`Customers`): the grouping of order rows into the customer
  list, in both the list and the search variants, and the stats on a
  customer's detail page.
- **Orders** (`OrdersJoin`): the client-side join of orders with their
  customers, items and products.
- **Route guard** (`Proxy`): the redirect decision of the middleware.
- **Registration** (`Registration`): the three-step sign-up form, as a class
  whose event handlers update its state.
- **Store hours** (`StoreHours`, `StoreHoursForm`): the default hours, day
  names, the insert rows, and the settings form's load and per-day edit.
- **Uploads** (`Storage`): the validation and path building done before an
  image upload.
- **Dates** (`DateHelpers`): the day distance between two timestamps.

Three modules hold shared machinery:

- `Wrappers`: the `Option`, `Fetch` and `Outcome` types.
- `Strings`: joining and splitting on a separator.
- `Grouping`: reference definitions of the JS patterns the source uses.
  - A `Map` filled in a `forEach`, which keeps its keys in insertion order, is
    `GroupKeys` plus per-key sums and first or latest rows.
  - A `Set` used to deduplicate is `Distinct`.
  - `Array.prototype.sort` with a descending comparator is an insertion sort, `SortDesc`.
  - `slice(0, n)` is `Take`.

**How the source is rendered.** Each backend response is an input parameter.
Where the source only reads a response's `data`, it is an `Option`: the rows,
or `None` for null data, which is also what a query that failed without being
checked yields; where a function's `catch` turns a thrown error into a fallback
value, `None` stands for that failure and the model returns the fallback.
Where the source checks a response's `error` and the error escapes the
function, the response is a `Fetch` (`Failed`, or `Fetched` with data that may
be null) and the result is an `Outcome` (`Threw`, or `Returned` with a value). Where the source mutates a `Map` in a
loop, the model is a method with a `while` loop over a `seq` of keys and a
`map`. Each such method is proved equal to the reference definition in
`Grouping`. Amounts are integers in the smallest currency unit, and averages
and percentages are reals. Dates are day numbers, and `created_at` timestamps
are integers that order like the ISO strings they stand for. Number-to-text
conversion (`String(n)` and `toFixed(2)`) is a function parameter.

## Model

| member | source | states |
|---|---|---|
| Phone.DigitsOnly | kiranawala-adminpanel/lib/utils/phone.ts:28 | removing every non-digit leaves only digits |
| Phone.DigitsAndPlus | kiranawala-adminpanel/lib/utils/phone.ts:9 | removing everything but digits and '+' leaves only digits and '+' |
| Phone.DigitsOnlyCharacterisation | kiranawala-adminpanel/lib/utils/phone.ts:28 | the digit filter distributes over concatenation, fixes all-digit strings and keeps exactly the digits (as a multiset) |
| Phone.FormatPhoneNumber | kiranawala-adminpanel/lib/utils/phone.ts:24-46 | "" for ""; in the three accepted digit shapes (12 digits from "91", 10 digits, 11 digits from "0") it is "+91" and the ten national digits; otherwise it is the input unchanged, not cleaned |
| Phone.DisplayPhoneNumber | kiranawala-adminpanel/lib/utils/phone.ts:5-19 | "" for ""; a cleaned "+91" number of length 13 gets spaces at positions 3 and 9 (length 15, removing them gives the cleaned string); anything else is the cleaned string |
| Phone.ValidIndianPhoneCharacterisation | kiranawala-adminpanel/lib/utils/phone.ts:51-65 | valid exactly when the digits are 10 long starting 6-9, or 12 long starting "91" then 6-9 |
| Phone.IsValidIndianPhone | kiranawala-adminpanel/lib/utils/phone.ts:51-65 | a valid number's digits are ten long, or twelve long beginning "91", and the last ten begin with 6-9 |
| Phone.DigitsOfE164 | kiranawala-adminpanel/lib/utils/phone.ts:28-32 | the digits of a "+91" number are "91" and its national part |
| Phone.FormatIdempotent | kiranawala-adminpanel/lib/utils/phone.ts:24-46 | formatting a formatted number changes nothing |
| Phone.ValidPhoneFormatsToMobileE164 | kiranawala-adminpanel/lib/utils/phone.ts:24-65 | a valid number formats to "+91" and ten digits whose first is 6-9 |
| Phone.E164IsClean | kiranawala-adminpanel/lib/utils/phone.ts:9 | the display cleaner leaves a formatted number unchanged |
| Phone.FormattedDisplaysGrouped | kiranawala-adminpanel/lib/utils/phone.ts:12-15 | every accepted-case result of formatting displays as "+91 XXXXX XXXXX" |
| DateHelpers.GetDaysBetween | kiranawala-adminpanel/lib/utils/date-helpers.ts:40-43 | the result is the least whole number of days covering the absolute difference |
| DateHelpers.CeilingUnique | kiranawala-adminpanel/lib/utils/date-helpers.ts:42 | that least whole number is unique |
| DateHelpers.DaysBetweenSymmetric | kiranawala-adminpanel/lib/utils/date-helpers.ts:41 | swapping the arguments gives the same result |
| DateHelpers.DaysBetweenZero | kiranawala-adminpanel/lib/utils/date-helpers.ts:41-42 | 0 exactly when the timestamps are equal |
| DateHelpers.DaysBetweenWholeDays | kiranawala-adminpanel/lib/utils/date-helpers.ts:42 | timestamps k days apart give k |
| DateHelpers.DaysBetweenPartialDay | kiranawala-adminpanel/lib/utils/date-helpers.ts:42 | a positive difference below one day gives 1 |
| Proxy.HasCompletedRegistration | kiranawala-adminpanel/proxy.ts:39-48 | false without a user; with a user, true exactly when an admin record was found |
| Proxy.Decide | kiranawala-adminpanel/proxy.ts:51-81 | a redirect only ever targets "/login", "/register" or "/dashboard" |
| Proxy.DecisionTable | kiranawala-adminpanel/proxy.ts:51-81 | the full decision: "/" goes home by status; dashboard paths go to login or register when not allowed; a registered user on "/login" or "/register" goes to the dashboard; everything else passes through |
| Proxy.RedirectLeavesPath | kiranawala-adminpanel/proxy.ts:51-79 | a redirect target differs from the current path |
| Proxy.RedirectSettles | kiranawala-adminpanel/proxy.ts:51-81 | following a redirect leads to a path that passes through |
| Proxy.RegisteredUserKeepsDashboard | kiranawala-adminpanel/proxy.ts:56-81 | a registered user passes through on every dashboard path |
| Storage.FileExtension | kiranawala-adminpanel/lib/utils/storage.ts:27 | the extension is the dot-free suffix after the last '.', or the whole name when there is none |
| Storage.ExtensionUnique | kiranawala-adminpanel/lib/utils/storage.ts:27 | only one suffix has those properties |
| Storage.PlanUpload | kiranawala-adminpanel/lib/utils/storage.ts:8-29 | a file over 5 MiB is rejected for size, whatever its type; a file that is not too large but has a type outside the four allowed is rejected for type; otherwise the name is random part, '-', timestamp, '.', extension, and the path is under the folder when one is given |
| Storage.GeneratedNameKeepsExtension | kiranawala-adminpanel/lib/utils/storage.ts:27-28 | the generated name has the original file's extension |
| Storage.SizeLimitBoundary | kiranawala-adminpanel/lib/utils/storage.ts:8-19 | exactly 5 MiB passes the size check and one byte more fails it |
| StoreHours.GetDayName | kiranawala-adminpanel/lib/queries/store-hours.ts:77-79 | indices 0-6 give Sunday to Saturday; every other index gives "Unknown" |
| StoreHours.DayNamesDistinct | kiranawala-adminpanel/lib/queries/store-hours.ts:14-22 | different days have different names |
| StoreHours.DefaultHours | kiranawala-adminpanel/lib/queries/store-hours.ts:35-40 | seven entries, entry i for day i, open 09:00 to 21:00, not closed |
| StoreHours.InsertRows | kiranawala-adminpanel/lib/queries/store-hours.ts:67-72 | the inputs in order, each with the store id added and nothing else changed |
| StoreHours.CreatedRows | kiranawala-adminpanel/lib/queries/store-hours.ts:42-53 | one created row per inserted row |
| StoreHours.GetStoreHours | kiranawala-adminpanel/lib/queries/store-hours.ts:24-57 | throws exactly when the fetch fails, or when no rows were found and the insert fails; fetched rows are returned as they are; with none, the seven default rows of the store, Sunday to Saturday from 09:00 to 21:00 and open, are created and returned |
| StoreHoursForm.LoadHours | kiranawala-adminpanel/components/settings/store-hours-form.tsx:27-36 | same length and order, copying the four hour fields of each row |
| StoreHoursForm.HandleChange | kiranawala-adminpanel/components/settings/store-hours-form.tsx:50-58 | same length; only the entry at the index changes, and in it only the named field; an out-of-range index changes nothing |
| StoreHoursForm.ToggleOpen | kiranawala-adminpanel/components/settings/store-hours-form.tsx:90-94 | switching to `checked` sets `is_closed` to its negation |
| StoreHoursForm.HandleChangeIdempotent | kiranawala-adminpanel/components/settings/store-hours-form.tsx:55-57 | repeating an edit changes nothing more |
| StoreHoursForm.HandleChangeCommutes | kiranawala-adminpanel/components/settings/store-hours-form.tsx:55-57 | edits to different days commute |
| StoreHoursForm.NewStoreLoadsDefaults | kiranawala-adminpanel/components/settings/store-hours-form.tsx:27-36 | a store with no hours shows the default hours |
| StoreHoursForm.LoadAfterSave | kiranawala-adminpanel/lib/queries/store-hours.ts:67-72 | loading the rows that were saved gives back the edited hours |
| Registration.StepNumber | kiranawala-adminpanel/components/auth/registration-form.tsx:172 | the step counter is between 1 and 3 |
| Registration.Progress | kiranawala-adminpanel/components/auth/registration-form.tsx:165 | 33, 66 and 100 for steps 1, 2 and 3 |
| Registration.ProgressFollowsStep | kiranawala-adminpanel/components/auth/registration-form.tsx:165-172 | a later step has a larger progress value, and conversely |
| Registration.RegistrationForm.constructor | kiranawala-adminpanel/components/auth/registration-form.tsx:49-53 | starts at "info", not loading, no user id, empty fields |
| Registration.RegistrationForm.OnPhoneInfoSubmit | kiranawala-adminpanel/components/auth/registration-form.tsx:73-95 | the OTP is requested exactly when the schema accepts, for the normalised mobile number, while loading; success records number and name and moves to "otp"; failure changes nothing; loading is off afterwards |
| Registration.RegistrationForm.OnOtpSubmit | kiranawala-adminpanel/components/auth/registration-form.tsx:98-121 | verification is attempted exactly when the code has six characters, for the recorded number, while loading; only success with a user records the id and moves to "store"; loading is off afterwards; the entered code is kept |
| Registration.RegistrationForm.HandleBackToPhone | kiranawala-adminpanel/components/auth/registration-form.tsx:155-158 | back to "info" with the OTP input cleared and nothing else changed |
| Registration.RegistrationForm.HandleBackToOtp | kiranawala-adminpanel/components/auth/registration-form.tsx:160-162 | back to "otp" with nothing else changed |
| Registration.RegistrationForm.OnStoreSetupSubmit | kiranawala-adminpanel/components/auth/registration-form.tsx:124-149 | registration is requested exactly when the schema accepts and a user id is present, with the verified number, the name, the store details and the normalised store phone |
| CsvExport.Keys | kiranawala-adminpanel/lib/utils/export.ts:16 | the keys of a record in order, one per field |
| CsvExport.Lookup | kiranawala-adminpanel/lib/utils/export.ts:19 | a key that is absent reads as missing; a present key reads as one of its fields |
| CsvExport.LookupAppend | kiranawala-adminpanel/lib/utils/export.ts:19 | fields added under other keys do not change a lookup |
| CsvExport.Double | kiranawala-adminpanel/lib/utils/export.ts:22 | doubling quotes keeps the same characters and adds one per quote |
| CsvExport.UndoubleDouble | kiranawala-adminpanel/lib/utils/export.ts:22 | quote doubling can be undone |
| CsvExport.TextRoundTrip | kiranawala-adminpanel/lib/utils/export.ts:21-24 | reading a rendered text field back gives the original text |
| CsvExport.RenderCell | kiranawala-adminpanel/lib/utils/export.ts:20-24 | a missing value is ""; text without a comma or quote is written as it is; text with one is wrapped in quotes and grows by one character per inner quote |
| CsvExport.TextUnchangedIff | kiranawala-adminpanel/lib/utils/export.ts:21-24 | text is emitted unchanged exactly when it has no comma and no quote |
| CsvExport.TextLineBreaks | kiranawala-adminpanel/lib/utils/export.ts:21-24 | a rendered text field has a line break exactly when the text has one, because line breaks are not quoted |
| CsvExport.RowFields | kiranawala-adminpanel/lib/utils/export.ts:18-24 | one field per header |
| CsvExport.CsvLines | kiranawala-adminpanel/lib/utils/export.ts:16-28 | one header line and one line per row |
| CsvExport.ConvertToCSV | kiranawala-adminpanel/lib/utils/export.ts:13-29 | the output is empty exactly when there are no rows |
| CsvExport.RenderNoBreak | kiranawala-adminpanel/lib/utils/export.ts:21-24 | a value without a line break renders without one |
| CsvExport.JoinLines | kiranawala-adminpanel/lib/utils/export.ts:28 | joining with "\n" puts the separator only between lines, with no trailing newline |
| CsvExport.ConvertLines | kiranawala-adminpanel/lib/utils/export.ts:28 | when no value has a line break, splitting the output on "\n" gives back the header line and the row lines, rows + 1 in all |
| CsvExport.MissingKeyEmptyField | kiranawala-adminpanel/lib/utils/export.ts:18-24 | a header that a row lacks gives an empty field |
| CsvExport.ExtraKeysDropped | kiranawala-adminpanel/lib/utils/export.ts:16-18 | keys that are not headers do not affect a row's line |
| CsvExport.RowColumns | kiranawala-adminpanel/lib/utils/export.ts:25 | when no field contains a comma, splitting a row line on ',' gives its fields, one per header |
| CsvExport.SummaryLines | kiranawala-adminpanel/lib/utils/export.ts:142-150 | seven unescaped "Metric,Value" lines |
| CsvExport.ProductRecords | kiranawala-adminpanel/lib/utils/export.ts:153-159 | one record per top product |
| CsvExport.CategoryRecords | kiranawala-adminpanel/lib/utils/export.ts:162-168 | one record per category |
| CsvExport.ProductHeader | kiranawala-adminpanel/lib/utils/export.ts:153-159 | the products section's columns are Product, Category, Units Sold, Revenue, Order Count |
| CsvExport.CategoryHeader | kiranawala-adminpanel/lib/utils/export.ts:162-168 | the category section's columns are Category, Units Sold, Revenue, Order Count, Percentage |
| CsvExport.ReportHead | kiranawala-adminpanel/lib/utils/export.ts:171-175 | "SUMMARY", the seven summary lines, a blank line and "TOP PRODUCTS": ten lines |
| CsvExport.Section | kiranawala-adminpanel/lib/utils/export.ts:176-179 | an empty section is one empty line; otherwise a header and one line per row |
| CsvExport.SectionLines | kiranawala-adminpanel/lib/utils/export.ts:176-179 | a section's CSV splits into exactly those lines |
| CsvExport.ProductsLineFree | kiranawala-adminpanel/lib/utils/export.ts:153-159 | product values without line breaks give a product table without line breaks in its values |
| CsvExport.CategoriesLineFree | kiranawala-adminpanel/lib/utils/export.ts:162-168 | category values without line breaks give a category table without line breaks in its values |
| CsvExport.HeadLineFree | kiranawala-adminpanel/lib/utils/export.ts:171-175 | no line of the report head contains a line break |
| CsvExport.ReportLayout | kiranawala-adminpanel/lib/utils/export.ts:170-180 | the report splits into the summary head, the products section, a blank line, "CATEGORY BREAKDOWN" and the category section, in that order |
| CsvExport.ReportCsv | kiranawala-adminpanel/lib/utils/export.ts:170-180 | the report opens with the "SUMMARY" line and ends with a line break followed by the category table |
| CsvExport.CollapseNoSpaces | kiranawala-adminpanel/lib/utils/export.ts:183 | the collapsed store name contains no whitespace |
| CsvExport.CollapseSpaces | kiranawala-adminpanel/lib/utils/export.ts:183 | replacing whitespace runs never makes the name longer |
| CsvExport.CollapseKeepsPlain | kiranawala-adminpanel/lib/utils/export.ts:183 | a name without whitespace is kept as it is |
| CsvExport.CollapseRun | kiranawala-adminpanel/lib/utils/export.ts:183 | a maximal run of whitespace becomes a single "_" |
| CsvExport.ReportFileName | kiranawala-adminpanel/lib/utils/export.ts:183 | the collapsed name, "_", the period, "_report_", the date and ".csv", with no whitespace in the name part |
| Analytics.CategoryOf | kiranawala-adminpanel/lib/queries/analytics.ts:70 | never empty; anything but "Unknown" is the embedded product's category |
| Analytics.NameOf | kiranawala-adminpanel/lib/queries/analytics.ts:236 | never empty; anything but "Unknown" is the embedded product's name |
| Analytics.AverageOrderValue | kiranawala-adminpanel/lib/queries/analytics.ts:39 | 0 with no orders; otherwise the value times the count is the revenue |
| Analytics.GrowthPercentage | kiranawala-adminpanel/lib/queries/analytics.ts:54 | 0 when previous revenue is not positive; otherwise positive exactly when revenue grew and zero exactly when it stayed |
| Analytics.CategoryQuantities | kiranawala-adminpanel/lib/queries/analytics.ts:68-72 | the loop's map holds every category seen, in insertion order, with its total quantity |
| Analytics.AddQuantity | kiranawala-adminpanel/lib/queries/analytics.ts:69-72 | one item moves the map from the totals of the items before it to the totals including it; a new category is appended to the key order |
| Analytics.TopCategory | kiranawala-adminpanel/lib/queries/analytics.ts:74-81 | "N/A" when no category total is positive; otherwise the first category in insertion order with the greatest total |
| Analytics.ScanTop | kiranawala-adminpanel/lib/queries/analytics.ts:74-81 | the strict-`>` scan over the map ends with "N/A" when no total is positive, otherwise with the first key whose total is the greatest |
| Analytics.ScanPicksTopCategory | kiranawala-adminpanel/lib/queries/analytics.ts:68-81 | when the map holds each category's own total quantity, the scan's pick is the items' top category |
| Analytics.TopCategoryUnique | kiranawala-adminpanel/lib/queries/analytics.ts:74-81 | only one category meets that description |
| Analytics.TopCategoryIsMaximal | kiranawala-adminpanel/lib/queries/analytics.ts:74-81 | the top category was seen and no category sold more |
| Analytics.CategoryQuantitiesCoverItems | kiranawala-adminpanel/lib/queries/analytics.ts:68-72 | the category totals add up to the total quantity |
| Analytics.GetAnalyticsData | kiranawala-adminpanel/lib/queries/analytics.ts:36-101 | order count, revenue, distinct customers (never more than the orders), average, growth and top category; the zero record when the query fails |
| Analytics.Days | kiranawala-adminpanel/lib/queries/analytics.ts:131-142 | consecutive days from the first |
| Analytics.DailySeries | kiranawala-adminpanel/lib/queries/analytics.ts:123-142 | one point per day from first to last inclusive, none when first > last, each the sum of its rows' values and 0 for a day without rows |
| Analytics.DayTotals | kiranawala-adminpanel/lib/queries/analytics.ts:123-127 | the date map holds exactly the days that have rows, each with the sum of its rows' values |
| Analytics.AddToDay | kiranawala-adminpanel/lib/queries/analytics.ts:124-127 | one row moves the date map from the sums of the rows before it to the sums including it |
| Analytics.GetOrderTrends | kiranawala-adminpanel/lib/queries/analytics.ts:104-149 | per day, the number of orders on that day; [] when the query fails |
| Analytics.GetRevenueTrends | kiranawala-adminpanel/lib/queries/analytics.ts:170-191 | per day, the revenue of that day's orders; [] when the query fails |
| Analytics.SeriesAccountsForEveryRow | kiranawala-adminpanel/lib/queries/analytics.ts:123-142 | when every row falls in the range, the series adds up to the rows' total |
| Analytics.OrderTrendCountsOrders | kiranawala-adminpanel/lib/queries/analytics.ts:123-142 | the order trend adds up to the number of orders in the range |
| Analytics.ProductEntries | kiranawala-adminpanel/lib/queries/analytics.ts:222-247 | one entry per product id in insertion order, with name and category from its first row, quantity, revenue and row count summed |
| Analytics.ProductEntryAddRow | kiranawala-adminpanel/lib/queries/analytics.ts:231-247 | one more row updates its product's entry as the loop body does |
| Analytics.AddToOwnProduct | kiranawala-adminpanel/lib/queries/analytics.ts:241-244 | the row's own product gains its quantity, quantity times price, and one order, starting from zero totals when the product is new |
| Analytics.AddProduct | kiranawala-adminpanel/lib/queries/analytics.ts:231-245 | one loop step keeps the product map equal to the reference entries and appends a new product to the key order |
| Analytics.AggregateProducts | kiranawala-adminpanel/lib/queries/analytics.ts:222-247 | the loop's map equals the reference entries |
| Analytics.GetTopProducts | kiranawala-adminpanel/lib/queries/analytics.ts:250-256 | the entries sorted by revenue and cut to the limit; [] when the query fails |
| Analytics.ProductEntriesDistinct | kiranawala-adminpanel/lib/queries/analytics.ts:222-247 | no product appears twice |
| Analytics.TopProductsAreEntries | kiranawala-adminpanel/lib/queries/analytics.ts:250-252 | every top product is one of the entries |
| Analytics.TopProductsDistinct | kiranawala-adminpanel/lib/queries/analytics.ts:250-252 | no product appears twice in the top list |
| Analytics.TopProductsAreTheBest | kiranawala-adminpanel/lib/queries/analytics.ts:250-252 | sorted by revenue, non-increasing; min(limit, products) long; no left-out product earns more than one that is kept |
| Analytics.ProductOrderCountsCoverItems | kiranawala-adminpanel/lib/queries/analytics.ts:246 | the order counts add up to the number of rows |
| Analytics.CategoryEntries | kiranawala-adminpanel/lib/queries/analytics.ts:282-313 | one entry per category in insertion order, with summed quantity, revenue and row count, and its share of the total revenue |
| Analytics.CategoryEntryAddRow | kiranawala-adminpanel/lib/queries/analytics.ts:288-301 | one more row updates its category's entry as the loop body does |
| Analytics.AddToOwnCategory | kiranawala-adminpanel/lib/queries/analytics.ts:297-300 | the row's own category gains its quantity, quantity times price, and one order, starting from zero when the category is new |
| Analytics.AddCategory | kiranawala-adminpanel/lib/queries/analytics.ts:288-301 | one loop step keeps the category map equal to the reference totals and appends a new category to the key order |
| Analytics.AggregateCategories | kiranawala-adminpanel/lib/queries/analytics.ts:282-301 | the loop's map equals the reference entries |
| Analytics.GetCategoryBreakdown | kiranawala-adminpanel/lib/queries/analytics.ts:303-318 | the entries sorted by revenue; [] when the query fails |
| Analytics.CategoryValuesRevenue | kiranawala-adminpanel/lib/queries/analytics.ts:303 | the category revenues add up to the revenue of all rows |
| Analytics.CategoryBreakdownMeaning | kiranawala-adminpanel/lib/queries/analytics.ts:282-314 | sorted by revenue; exactly one entry per category; order counts add up to the rows; all percentages 0 when total revenue is not positive |
| Customers.Kept | kiranawala-adminpanel/lib/queries/customers.ts:46-48 | rows without an embedded customer are skipped |
| Customers.CustomerEntries | kiranawala-adminpanel/lib/queries/customers.ts:37-71 | one entry per customer id of the kept rows |
| Customers.CustomerEntryAddRow | kiranawala-adminpanel/lib/queries/customers.ts:50-70 | one more row updates its customer's entry as the loop body does |
| Customers.AddToOwnCustomer | kiranawala-adminpanel/lib/queries/customers.ts:50-70 | the row's own customer gains one order and the row's amount; a later date replaces the last order date when that is tracked |
| Customers.Step | kiranawala-adminpanel/lib/queries/customers.ts:40-70 | a row without a customer changes nothing; a row with one is added as the loop body does |
| Customers.AddRow | kiranawala-adminpanel/lib/queries/customers.ts:50-70 | one step of the loop keeps the map equal to the reference entries |
| Customers.AggregateCustomers | kiranawala-adminpanel/lib/queries/customers.ts:37-71 | the loop's map equals the reference entries of the kept rows |
| Customers.GetCustomers | kiranawala-adminpanel/lib/queries/customers.ts:37-81 | the entries with the latest order date, sorted newest first; [] when the query fails |
| Customers.SearchCustomers | kiranawala-adminpanel/lib/queries/customers.ts:157-192 | the entries with the first row's date, in insertion order; [] when the query fails |
| Customers.CustomerKeys | kiranawala-adminpanel/lib/queries/customers.ts:45-61 | a customer is listed exactly when one of its rows has an embedded customer |
| Customers.CustomerCountsCoverRows | kiranawala-adminpanel/lib/queries/customers.ts:45-65 | the order counts add up to the number of kept rows |
| Customers.CustomerSpendingCoversRows | kiranawala-adminpanel/lib/queries/customers.ts:45-65 | the amounts spent add up to the kept rows' total |
| Customers.GetCustomersNewestFirst | kiranawala-adminpanel/lib/queries/customers.ts:59-77 | the list is a permutation of the entries sorted newest first, and each last order date is the latest of that customer's dates: at least every one of them, and equal to one of them |
| Customers.SearchAgreesOnNewestFirst | kiranawala-adminpanel/lib/queries/customers.ts:170-188 | on rows ordered newest first, as the list query fetches them, the first row's date is the latest, so both variants agree |
| Customers.OrderStatsOf | kiranawala-adminpanel/lib/queries/customers.ts:117-120 | count and sum of the orders; average 0 with none and otherwise sum over count; last date absent exactly when there are no orders, and otherwise the first fetched order's date |
| Customers.LastOrderIsLatest | kiranawala-adminpanel/lib/queries/customers.ts:112-120 | on orders fetched newest first, the reported last order date is one of the orders' dates and no order is later |
| Customers.GetCustomerDetails | kiranawala-adminpanel/lib/queries/customers.ts:84-136 | null exactly when the customer could not be fetched or the orders query failed; otherwise the customer, its orders (none for null data) and their stats |
| OrdersJoin.DistinctIdsExact | kiranawala-adminpanel/lib/queries/orders.ts:53 | the deduplicated ids hold each non-empty id once and nothing else |
| OrdersJoin.CustomerIdsExact | kiranawala-adminpanel/lib/queries/orders.ts:53 | each non-empty customer id of the orders, once |
| OrdersJoin.ProductIdsExact | kiranawala-adminpanel/lib/queries/orders.ts:67 | each non-empty product id of the items, once |
| OrdersJoin.MapGet | kiranawala-adminpanel/lib/queries/orders.ts:74-75 | a found row is a fetched row with that id; nothing is found exactly when no row has the id |
| OrdersJoin.MapGetUnique | kiranawala-adminpanel/lib/queries/orders.ts:74-75 | with unique ids the lookup finds the one row with the id |
| OrdersJoin.JoinItems | kiranawala-adminpanel/lib/queries/orders.ts:82-85 | one joined item per item |
| OrdersJoin.CustomerIds | kiranawala-adminpanel/lib/queries/orders.ts:53 | no customer id twice and no empty id; CustomerIdsExact gives every non-empty id |
| OrdersJoin.ProductIds | kiranawala-adminpanel/lib/queries/orders.ts:67 | no product id twice and no empty id; ProductIdsExact gives every non-empty id |
| OrdersJoin.JoinOrder | kiranawala-adminpanel/lib/queries/orders.ts:77-86 | the order is kept whole; the customer is null without a customer id, and a found customer is a fetched one with the order's customer id; every attached item is a fetched item of this order |
| OrdersJoin.GetOrders | kiranawala-adminpanel/lib/queries/orders.ts:11-93 | throws exactly without a signed-in user or when the order query fails; [] for an admin without a store; otherwise one joined order per fetched order, so null or empty data gives [] |
| OrdersJoin.GetOrdersKeepsOrders | kiranawala-adminpanel/lib/queries/orders.ts:77-78 | each joined order is the fetched order at the same place with all its fields |
| OrdersJoin.GetOrdersItems | kiranawala-adminpanel/lib/queries/orders.ts:80-82 | an order's items are exactly the fetched items with its id, in fetched order |
| OrdersJoin.GetOrdersCustomer | kiranawala-adminpanel/lib/queries/orders.ts:79 | the customer is null without a customer id or a match; otherwise a fetched customer with that id |
| OrdersJoin.JoinItemProduct | kiranawala-adminpanel/lib/queries/orders.ts:84 | the product is null without a product id or a match; otherwise a fetched product with that id |
| OrdersJoin.NoProductIdsNoProducts | kiranawala-adminpanel/lib/queries/orders.ts:67-71 | skipping the product query when no item names a product loses nothing |
| OrdersJoin.GetOrderById | kiranawala-adminpanel/lib/queries/orders.ts:95-147 | throws exactly without a signed-in user or when the order query fails; null for null order data; otherwise the order with all its fields, every fetched item in order, the fetched customer when the order has a customer id and none otherwise |
| OrdersJoin.GetOrderByIdProducts | kiranawala-adminpanel/lib/queries/orders.ts:124-139 | an item's product is absent when it has no product id or no fetched product has it, otherwise a fetched product with that id |
| Grouping.Distinct | kiranawala-adminpanel/lib/queries/orders.ts:53 | a `Set` holds every element once and nothing else |
| Grouping.GroupKeys | kiranawala-adminpanel/lib/queries/analytics.ts:232-242 | the keys of a `Map` filled row by row: no key twice, at most one per row |
| Grouping.GroupKeysMembers | kiranawala-adminpanel/lib/queries/analytics.ts:232-242 | a key is in the `Map` exactly when some row has it |
| Grouping.FirstWhere | kiranawala-adminpanel/lib/queries/analytics.ts:232-242 | the row an entry is created from has the entry's key and is one of the rows |
| Grouping.FirstWhereIsFirst | kiranawala-adminpanel/lib/queries/analytics.ts:232-242 | that row is the first with the key: no earlier row has it |
| Grouping.LatestWhereIsMax | kiranawala-adminpanel/lib/queries/customers.ts:67-70 | the latest timestamp of a key is one of its rows' and no row of that key is later |
| Grouping.SortDesc | kiranawala-adminpanel/lib/queries/analytics.ts:251 | the sort puts its input in non-increasing order of the key, as a permutation |
| Grouping.Take | kiranawala-adminpanel/lib/queries/analytics.ts:252 | `slice(0, n)` keeps the first min(n, length) elements |

## Left out

- Every call to the hosted backend is left out: authentication, table queries, inserts, deletes, storage uploads and the middleware's cookie handling. Their results are parameters, as described above.
- StoreHours.GetStoreHours: the insert is assumed to return the inserted rows in the order they were inserted, each with the id given in `createdIds`; a successful insert that returns null data is not modelled.
- Grouping.SortDesc: stability (equal keys keeping their order, as the language requires of `Array.prototype.sort`) is not stated.
- OrdersJoin.GetOrders: the error of the admin's store lookup is not checked by the source; it is folded into `hasStore`.
- Realtime subscriptions, cache invalidation, toasts and navigation are left out; they are UI side effects.
- The query builder filters of `getOrders` (status, search, date range) are left out; they run in the backend.
- `exportReportToPDF` and `downloadBlob` are left out; they drive jsPDF and the DOM.
- `String(n)` and `toFixed(2)` are parameters of the CSV functions, since floating-point text formatting is not modelled.
- Calendar arithmetic is left out. This covers date-fns `format`, the previous-period window of `getAnalyticsData` and the trend labels. Days are integers, and the previous period's amounts are a parameter.
- `Object.keys` is modelled as the record's fields in their given order. The engine's rule that integer-like keys come first is not modelled, and neither is a record with a repeated key.
- Customers.GetCustomers: `created_at` is an integer, so the source's test for a falsy (empty) `last_order_date` has no counterpart. The sort compares these integers, not parsed `Date`s.
- Registration.RegistrationForm.OnPhoneInfoSubmit: only the loading flag's value during and after the awaited call is modelled, not the interleaving of React renders. The OTP service's answer is a parameter.
- The zod schemas are modelled only as the three acceptance predicates of the registration form. The other forms' schemas are not part of this model.
- Storage: `Math.random` and `Date.now` are the parameters `randomPart` and `timestamp`.
- The customer detail's `orders` keep only the amount and creation time that the stats read; their nested items are not modelled.
- `lib/queries/registration.ts` orchestration is not part of this model: its meaning lives in the backend.
