# CSE Motors dealership site — a Dafny model of its request logic

CSE Motors is a small server-rendered dealership site. It is built on Express, server-side templates and a PostgreSQL store. This project models the logic that sits between an HTTP request and the store:

- **The field validators.** These are the express-validator chains for classification names, vehicles, account updates, passwords and reviews. They are modelled as pure functions. Each returns the sanitised body and the error list, in the order express-validator collects them. A chain does not stop at its first failure, so every failing check adds its message.
- **The handlers.** These are the validation middlewares and the controllers for inventory, accounts and reviews. They are modelled as methods over a `Request` and a `Response` object, and each method may change only the fields its `modifies` clause names:
  - `Request`: body, params, validation errors and flashes;
  - `Response`: locals, status, rendered view, redirect location, cookies, continuation and delegation.

  Each handler's contract states the outcome on every branch (render, redirect, continue or throw) and which store queries were made. An exception that escapes a handler is the result `thrown`.
- **The HTML serialisers** (`utilities/index.js`). These are the navigation list, the classification grid, the classification `<select>` and the vehicle-detail fallbacks. The list builders are loops that append to a string. Each one is proved equal to a specification function. The nav and select specifications are proved to round-trip through a small parser, which is how "one entry per row, in input order" is stated for them. The grid is stated by entry position instead: the notice iff there are no rows, and the k-th item is built from the k-th vehicle.
- **The error page** (`server.js`). This covers the 404 fallback and the mapping from an error to a status, message, title and stack visibility.

JavaScript semantics are modelled where the code depends on them:

- truthiness, `||`, `String()`, and a property read that throws a `TypeError` on `null` or `undefined`;
- strict equality, where `NaN` equals nothing;
- object spread, `delete`, and `parseInt`, with its `0x` prefix for hexadecimal;
- the two string lengths the validators see: the validator library's `isLength` count, which counts a character beyond U+FFFF once and does not count the variation selectors U+FE0E and U+FE0F, and the UTF-16 length that a regular expression without the `u` flag walks.

The store, bcrypt, the JWT signer, `isEmail`, `normalizeEmail`, the numeric checks on the price, and `Intl` formatting are oracles, given as functions. The current year and the navigation markup are parameters.

Modules:
- `Wrappers`: Option and Result.
- `Text`: whitespace, trim, the two string lengths, digits, integer syntax.
- `Js`: JavaScript values.
- `Http`: request, response, view, cookie, token and configuration.
- `Stores`: the model layer as oracles with query logs.
- `Chains`: the validator-chain machinery.
- `Html`: the serialisers.
- `InventoryValidation`, `AccountValidation`, `ReviewValidation`: the validators.
- `InvController`, `AccountController`, `ReviewController`: the controllers.
- `ErrorPage`: the error page.

## Model

| member | source | states |
|---|---|---|
| Text.TrimIsSlice | utilities/inventory-validation.js:15 | A trimmed value is a contiguous slice of the input, with only whitespace cut from either end |
| Text.TrimmedEnds | utilities/inventory-validation.js:15 | A non-empty trimmed value neither starts nor ends with whitespace |
| Text.TrimEmptyIffBlank | utilities/inventory-validation.js:15-17 | Trimming gives "" exactly when the input is all whitespace, including the empty input |
| Text.TrimNoWhitespace | utilities/inventory-validation.js:15 | Trimming leaves a value with no whitespace unchanged |
| Text.TrimKeepsTrimmed | utilities/inventory-validation.js:15 | Trimming leaves a value that does not start or end with whitespace unchanged |
| Text.TrimIdempotent | middlewares/accountValidation.js:11 | Trimming twice is the same as trimming once |
| Text.ValidatorLengthPlain | utilities/inventory-validation.js:16 | Without variation selectors, `isLength` counts every character |
| Text.ValidatorLengthZero | utilities/inventory-validation.js:16 | The `isLength` count is zero exactly when every character is a variation selector |
| Text.ValidatorLengthAtLeast | utilities/inventory-validation.js:79 | A text whose first n characters are not variation selectors has an `isLength` count of at least n |
| Text.Utf16LengthOfBmp | middlewares/accountValidation.js:49 | Without characters beyond U+FFFF, the UTF-16 length is the number of characters |
| Text.SplitAtFirst | utilities/inventory-validation.js:82 | Splitting at the first occurrence of a character recovers the two parts it was joined from |
| Text.NatToStringValue | middlewares/reviewValidation.js:17 | The decimal rendering of a natural number is all digits and reads back as that number |
| Text.NatToStringDigits | middlewares/reviewValidation.js:17 | A decimal rendering has no leading zero unless it is "0" |
| Text.IntToStringText | utilities/index.js:16 | A rendered integer has no quote, no `<` and no whitespace, and starts with a digit or a minus sign |
| Text.IntToStringRoundTrip | middlewares/reviewValidation.js:17 | The integer syntax accepted by `isInt` reads a rendered integer back as the same integer |
| Js.Or | utilities/index.js:96 | The logical or of `a` and `b` is `a` when `a` is truthy and `b` otherwise |
| Js.Get | controllers/reviewController.js:58 | Reading a property of `undefined` or `null` throws; on an object it yields the field or `undefined` |
| Js.Delete | controllers/accountController.js:109 | `delete` removes exactly one key from an object |
| Js.DigitPrefixOfDigits | controllers/reviewController.js:46 | Without a `0x` prefix, `parseInt` reads the maximal leading run of decimal digits |
| Js.HexPrefixOfHexDigits | controllers/reviewController.js:46 | After a `0x` or `0X` prefix, `parseInt` reads the maximal leading run of hexadecimal digits |
| Js.ParseIntOfSigned | controllers/reviewController.js:46 | After an optional sign, `parseInt` gives the magnitude read from the rest, negated for "-", or `NaN` when none is read |
| Js.HexMagnitude | controllers/reviewController.js:46 | "0x" or "0X" followed by hexadecimal digits reads as their base-16 value; with no digit after it, nothing is read |
| Js.ParseIntOfHex | controllers/reviewController.js:79 | `parseInt` of an optional sign, `0x` and hexadecimal digits gives their signed base-16 value, so "0x10" is 16 and "-0x10" is -16 |
| Js.ParseIntOfBareHexPrefix | controllers/accountController.js:161 | `parseInt` of an optional sign and `0x` with no hexadecimal digit after it gives `NaN` |
| Js.ParseIntReadsHexIdentifier | controllers/reviewController.js:79 | `parseInt("0x10")` is 16 |
| Js.ParseIntOfBareHex | controllers/reviewController.js:79 | `parseInt("0x")` is `NaN` |
| Js.ParseIntOfRenderedInteger | controllers/reviewController.js:46 | `parseInt` of a rendered integer gives that integer |
| Js.ParseIntOfWord | controllers/reviewController.js:79 | `parseInt` of text that does not start with a sign, digit or whitespace gives `NaN` |
| Js.ParseIntValueOfText | controllers/accountController.js:161 | `parseInt` of any value parses its string form |
| Http.AppEnv | server.js:75 | The application environment is `NODE_ENV`, or "development" when it is unset or empty |
| Http.Sign | controllers/accountController.js:110 | Signing succeeds exactly for an object payload with a non-empty secret, and the token carries that object's fields |
| Http.SessionAccountId | controllers/reviewController.js:12 | Reading the logged-in account id throws exactly when `res.locals.accountData` is `undefined` or `null` |
| Http.Request.Flash | controllers/reviewController.js:17 | A flash appends one message and keeps the earlier ones |
| Http.Response.Redirect | controllers/reviewController.js:39 | A redirect sets status 302 and the location |
| Chains.TrimmedBody | utilities/inventory-validation.js:14-15 | After `trim()` the field holds its trimmed text, or "" when it was not submitted; every other field is unchanged |
| Chains.TrimmedFields | utilities/inventory-validation.js:56-114 | After the trimming chains, each named field holds its trimmed text, or "" when it was not submitted; the body gains exactly the named fields that were absent, and other fields are unchanged |
| Chains.TrimmedFieldText | utilities/inventory-validation.js:63-66 | A validator after `trim()` sees the trimmed text, and an absent field reads as "" |
| Chains.Check | utilities/inventory-validation.js:16-17 | A validator adds its message exactly when it fails |
| Chains.RunReports | utilities/inventory-validation.js:56-114 | A chain's error list contains a message exactly when some validator with that field and message failed, with no early exit |
| Chains.RunEmpty | utilities/inventory-validation.js:56-114 | A chain reports no error exactly when every validator passes |
| Chains.TableReports | utilities/inventory-validation.js:56-114 | For distinct field and message slots, a slot's message is reported exactly when that slot's check fails |
| Chains.TableEmpty | utilities/inventory-validation.js:56-114 | A rule table reports nothing exactly when every outcome passes |
| InventoryValidation.NonSpaceRunIffNoWhitespace | utilities/inventory-validation.js:19-20 | The pattern `^\S+$` accepts exactly the non-empty strings with no whitespace character |
| InventoryValidation.ClassificationRules | utilities/inventory-validation.js:11-30 | The chain trims `classification_name`, writing "" when none was submitted, and leaves the rest of the body as it is; at most three messages |
| InventoryValidation.ClassificationRulesMeaning | utilities/inventory-validation.js:14-27 | "required" iff the `isLength` count of the trimmed name is 0; "no spaces" iff the trimmed name is empty or contains whitespace; "exists" iff the store counts the trimmed name; no error iff none of these |
| InventoryValidation.ClassificationNameRequiredIffBlank | utilities/inventory-validation.js:14-17 | For a name without variation selectors, "required" is reported iff the submitted name is blank |
| InventoryValidation.SpecialCharactersPass | utilities/inventory-validation.js:19-20 | A punctuation-only name such as "SUV!" passes, whatever the "special characters" message says |
| InventoryValidation.InnerSpaceRejected | utilities/inventory-validation.js:19-20 | Two words joined by a space are rejected for spaces, although the outer whitespace is trimmed |
| InventoryValidation.ImagePathOfParts | utilities/inventory-validation.js:82 | `/images/vehicles/` plus a non-empty segment without `/` plus `.jpg`, `.jpeg` or `.png` matches the image pattern |
| InventoryValidation.VehicleImagePathShape | utilities/inventory-validation.js:82-89 | The image pattern accepts exactly the paths built that way |
| InventoryValidation.ImagePathIsLongEnough | utilities/inventory-validation.js:78-89 | Every path the image pattern accepts also passes the six-character length check |
| InventoryValidation.DefaultImagesPass | controllers/invController.js:101 | The placeholder image and thumbnail paths that the add-vehicle form starts with pass both image checks |
| InventoryValidation.InventoryRules | utilities/inventory-validation.js:56-114 | The chain trims exactly the ten vehicle fields, writing "" for any that was not submitted; at most one message per validator |
| InventoryValidation.InventoryTextRulesMeaning | utilities/inventory-validation.js:58-76 | `classification_id` is reported iff it is not an integer >= 1; make and model iff the `isLength` count of the trimmed text is < 3; description iff it is < 5 |
| InventoryValidation.InventoryImageRulesMeaning | utilities/inventory-validation.js:78-90 | Image and thumbnail are each reported for length iff their trimmed `isLength` count is < 6, and for format iff they fail the image pattern |
| InventoryValidation.InventoryNumberRulesMeaning | utilities/inventory-validation.js:92-112 | Price per its two numeric checks; year iff not an integer in [1886, current year + 1]; miles iff not an integer >= 0; color iff the `isLength` count of the trimmed text is < 3 |
| InventoryValidation.InventoryRulesPass | utilities/inventory-validation.js:56-114 | No error iff every check of the chain passes |
| InventoryValidation.TextSlotsReport | utilities/inventory-validation.js:58-76 | Each of the first four checks reports its own message exactly when it fails |
| InventoryValidation.ImageSlotsReport | utilities/inventory-validation.js:78-90 | Each image and thumbnail check reports its own message exactly when it fails |
| InventoryValidation.PriceYearSlotsReport | utilities/inventory-validation.js:92-102 | Each price and year check reports its own message exactly when it fails |
| InventoryValidation.MilesColorSlotsReport | utilities/inventory-validation.js:104-112 | Each miles and color check reports its own message exactly when it fails |
| InventoryValidation.BodyValues | utilities/inventory-validation.js:131 | Every submitted field is echoed back as a string and nothing else is added |
| InventoryValidation.ClassificationEchoAfterRules | utilities/inventory-validation.js:36-46 | After the rules, the re-rendered form echoes the trimmed name, or "" when none was submitted |
| InventoryValidation.CheckClassificationData | utilities/inventory-validation.js:35-50 | With errors it re-renders add-classification with the submitted name and does not continue; without errors it only continues |
| InventoryValidation.AddInventoryView | utilities/inventory-validation.js:126-133 | The re-rendered add-vehicle view echoes every submitted field and carries the errors and the list |
| InventoryValidation.CheckInventoryData | utilities/inventory-validation.js:119-137 | Without errors it only continues; with errors it re-renders add-inventory with every submitted field; a classification list that throws is propagated |
| InventoryValidation.EditInventoryView | utilities/inventory-validation.js:151-175 | The edit view is titled "Edit " + make + " " + model and echoes every edit field, including `inv_id`, as submitted |
| InventoryValidation.CheckUpdateData | utilities/inventory-validation.js:142-178 | The select is built first, and an error there propagates; then the handler continues when there are no errors and otherwise renders the edit view |
| AccountValidation.CheckEmailUnchanged | middlewares/accountValidation.js:25-36 | The duplicate-email message is raised only after a lookup that found the email |
| AccountValidation.UnchangedEmailNotLookedUp | middlewares/accountValidation.js:29-30 | When the email equals the stored one, the existence check is not run and nothing is reported |
| AccountValidation.ChangedEmailLookedUp | middlewares/accountValidation.js:26-35 | A changed email is looked up and reported iff it exists; for a missing account record the read of its email fails the validator with that error, without a lookup |
| AccountValidation.CustomNeverInvalid | middlewares/accountValidation.js:25-36 | The custom check never produces the invalid-email message |
| AccountValidation.NormalizedEmailBody | middlewares/accountValidation.js:23 | Normalisation rewrites only the email field |
| AccountValidation.UpdateRules | middlewares/accountValidation.js:8-38 | The update chain gives at most four messages |
| AccountValidation.UpdateSlotsReport | middlewares/accountValidation.js:10-24 | Each of the first name, last name and email format checks reports its message exactly when it fails |
| AccountValidation.UpdateSlotsSilent | middlewares/accountValidation.js:10-24 | The table of simple checks never reports the duplicate-email message |
| AccountValidation.UpdateSlotsPass | middlewares/accountValidation.js:10-24 | The simple checks report nothing iff all three pass |
| AccountValidation.UpdateFirstNameMeaning | middlewares/accountValidation.js:10-13 | The first name is reported iff the `isLength` count of the trimmed name is < 1 |
| AccountValidation.UpdateLastNameMeaning | middlewares/accountValidation.js:15-18 | The last name is reported iff the `isLength` count of the trimmed name is < 2, so "❤️" (a heart and a variation selector) is rejected |
| AccountValidation.UpdateEmailInvalidMeaning | middlewares/accountValidation.js:20-24 | The email is reported invalid iff the trimmed email fails `isEmail` |
| AccountValidation.UpdateEmailExistsMeaning | middlewares/accountValidation.js:25-36 | The email is reported as existing iff it was looked up and found |
| AccountValidation.UpdateRulesPass | middlewares/accountValidation.js:8-38 | No error iff all three simple checks pass (on the `isLength` counts) and the custom check finds no duplicate; the lookup flag is the custom check's own (definitional; its meaning is stated by `UpdateEmailLookupMeaning`) |
| AccountValidation.UpdateEmailLookupMeaning | middlewares/accountValidation.js:25-31 | The store's address check runs iff the stored address of the account named by the untrimmed `account_id` can be read and differs from the normalised submitted address |
| AccountValidation.UpdateRulesSanitize | middlewares/accountValidation.js:11-23 | The three fields are trimmed and are present afterwards, "" when not submitted; the email is also normalised; other fields are unchanged |
| AccountValidation.LooksAheadOnOneLine | middlewares/accountValidation.js:49 | On a line with no terminator, a `(?=.*X)` lookahead holds iff some character is of class X |
| AccountValidation.StrongPasswordShape | middlewares/accountValidation.js:49 | The password pattern accepts iff the UTF-16 length is >= 12, at least one digit, one lowercase letter, one uppercase letter and one character that is neither alphanumeric nor whitespace, and no whitespace |
| AccountValidation.PasswordRules | middlewares/accountValidation.js:43-52 | The chain trims the password only, writing "" when none was submitted; at most two messages |
| AccountValidation.PasswordSlotsReport | middlewares/accountValidation.js:47-50 | Each of the two checks reports its own message exactly when it fails |
| AccountValidation.PasswordRulesMeaning | middlewares/accountValidation.js:43-52 | "does not meet requirements" iff the `isLength` count of the trimmed password is < 12; "complexity" iff it fails the pattern; no error iff both hold |
| AccountValidation.PasswordPatternDecides | middlewares/accountValidation.js:45-50 | For a password without variation selectors or characters beyond U+FFFF, no error iff the pattern holds |
| AccountValidation.ShortPasswordMatchesPattern | middlewares/accountValidation.js:47-49 | Ten characters and one beyond U+FFFF, or eleven and a variation selector, with a digit and both letter cases, match the pattern while the `isLength` count is 11 |
| AccountValidation.PatternAcceptsShortPassword | middlewares/accountValidation.js:45-50 | Such a password, for example "Abcdefgh1!😀", gets only the "does not meet requirements" message |
| AccountValidation.StickyAccount | middlewares/accountValidation.js:69-74 | The new `accountData` is the old record with only first name, last name and email replaced by the submitted values; every other field is unchanged |
| AccountValidation.StickyAfterUpdateRules | middlewares/accountValidation.js:69-74 | After the update rules, the sticky names and email are the trimmed (and, for the email, normalised) text, "" when not submitted, never `undefined` |
| AccountValidation.CheckUpdateData | middlewares/accountValidation.js:57-82 | Without errors it continues and writes nothing; with errors it overlays the record and renders account-update |
| AccountValidation.CheckPassword | middlewares/accountValidation.js:87-102 | Without errors it continues; with errors it renders account-update and leaves `res.locals` untouched |
| ReviewValidation.ReviewRules | middlewares/reviewValidation.js:7-20 | The chain trims the review text only, writing "" when none was submitted; at most two messages |
| ReviewValidation.ReviewRulesMeaning | middlewares/reviewValidation.js:10-18 | The text is reported iff the `isLength` count of the trimmed text is < 5; the rating iff the untrimmed value is not an integer in 1..5 |
| ReviewValidation.RatingInRangeAccepted | middlewares/reviewValidation.js:16-18 | A rendered integer from 1 to 5 is accepted |
| ReviewValidation.RatingOutOfRangeRejected | middlewares/reviewValidation.js:16-18 | Any other rendered integer is rejected |
| ReviewValidation.PaddedOrMissingRatingRejected | middlewares/reviewValidation.js:16-18 | A rating with leading or trailing whitespace, or no rating, is rejected because the rating is not trimmed |
| ReviewValidation.CheckReviewData | middlewares/reviewValidation.js:25-38 | Always continues; sets `res.locals.errors` only when the error set is non-empty |
| Stores.ReviewStore.SubmitReview | models/review-model.js:6-15 | One insert is logged, and a failed insert gives `null` |
| Stores.ReviewStore.GetReviewByReviewId | models/review-model.js:44-53 | One select is logged, and a failed query throws "Could not retrieve review details." |
| Stores.ReviewStore.DeleteReview | models/review-model.js:58-67 | One delete is logged, and a failed query throws "Failed to delete review." |
| Stores.ReviewRead | models/review-model.js:46-52 | A read gives the row or the fixed error |
| Stores.AccountStore.GetAccountByEmail | controllers/accountController.js:94 | One lookup by email is logged, and the answer is the store's |
| Stores.AccountStore.RegisterAccount | controllers/accountController.js:61-66 | One insert with the hashed password is logged |
| Stores.AccountStore.GetAccountById | controllers/accountController.js:163 | One lookup by id is logged |
| Stores.AccountStore.UpdateAccount | controllers/accountController.js:187-192 | One update of the three fields is logged |
| Stores.AccountStore.UpdatePassword | controllers/accountController.js:248-251 | One password update with the hash is logged |
| Stores.InventoryStore.GetInventoryByClassificationId | models/inventory-model.js:27-41 | One select is logged; its rows or its error, which is rethrown |
| Stores.InventoryStore.RegisterClassification | models/inventory-model.js:66-75 | One insert is logged; a failed insert gives `false` |
| Stores.InventoryStore.RegisterInventory | models/inventory-model.js:95-109 | One insert of the ten fields is logged; a failed insert gives `false` |
| Html.JoinSnoc | utilities/index.js:12-23 | Appending one more row appends exactly its fragment |
| Html.JoinAt | utilities/index.js:42-60 | The fragment of row k sits between the fragments of the rows before and after it |
| Html.ParseListJoin | utilities/index.js:12-23 | A list of fragments followed by the closing markup parses back to the rows |
| Html.ParseIdOf | utilities/index.js:16 | A rendered id followed by a quote reads back as that id |
| Html.GetNav | utilities/index.js:8-27 | The loop builds exactly `Nav(rows)` |
| Html.NavShape | utilities/index.js:10-26 | The nav is "<ul>", then the Home item, then one item per row, then the Management item and "</ul>" |
| Html.NavItemShape | utilities/index.js:13-22 | A row's item links to "/inv/type/" + id, with title "See our inventory of <name> vehicles" and the name as text |
| Html.NavItemRoundTrip | utilities/index.js:13-22 | An item parses back to its row when the name has no `"` and no `<` |
| Html.NavRoundTrip | utilities/index.js:8-27 | The nav parses back to exactly the input rows, in order, when no name contains `"` or `<` |
| Html.NavOn | utilities/index.js:12 | Called with rows, the builder gives the nav; called with anything else, `forEach` throws a `TypeError` |
| Html.NavOfQueryResultThrows | utilities/index.js:9-12 | Called as written with the query-result object, the builder throws "data.forEach is not a function" |
| Html.BuildClassificationList | utilities/index.js:119-128 | The loop builds exactly `Select(rows)` |
| Html.OptionItemShape | utilities/index.js:123 | An option is `<option value="id">name</option>` |
| Html.OptionRoundTrip | utilities/index.js:123 | An option parses back to its row when the name has no `<` |
| Html.SelectRoundTrip | utilities/index.js:119-128 | The select parses back to exactly the input rows, in order, when no name contains `<` |
| Html.ClassificationListOn | utilities/index.js:122 | Called with rows, the builder gives the select; called with anything else, it throws a `TypeError` |
| Html.ClassificationListOfBodyFieldThrows | utilities/inventory-validation.js:125 | Called as written with the submitted `classification_id`, or with nothing, the builder throws |
| Html.BuildClassificationGrid | utilities/index.js:38-66 | The loop builds exactly `Grid(rows)` |
| Html.GridEmptyIffNotice | utilities/index.js:40-65 | The grid is the "no matching vehicles" notice iff there are no rows; otherwise it opens with `<ul id="inv-display">` and closes with `</ul>` |
| Html.GridEntryAt | utilities/index.js:42-60 | Vehicle k's item sits in the grid between the items of the vehicles before and after it |
| Html.WrapVehicle | utilities/index.js:82-118 | A missing vehicle throws; otherwise the color falls back to "N/A", the description to "No description available.", the price is `inv_price`, or 0 when it is falsy, and mileage shows the raw `inv_miles` |
| InvController.BuildManagement | controllers/invController.js:12-20 | Renders the management view |
| InvController.ClassificationTitle | controllers/invController.js:42-45 | The title is the first row's classification name + " vehicles", or "Vehicle vehicles" when there are no rows |
| InvController.FallbackTitleOnlyWhenEmpty | controllers/invController.js:42-45 | When no classification is named "Vehicle", the fallback title appears exactly for an empty result |
| InvController.BuildByClassificationId | controllers/invController.js:36-50 | One store query for the route parameter; its error is rethrown; otherwise the classification view is rendered |
| InvController.BuildAddClassification | controllers/invController.js:26-34 | The form starts with `classification_name` "" and errors `null` |
| InvController.RegisterClassification | controllers/invController.js:57-85 | One insert; success renders management with a flash naming the classification; failure gives 501 with the name sticky |
| InvController.InitialFields | controllers/invController.js:101 | The starting values cover exactly the ten vehicle fields |
| InvController.InitialFormHolds | controllers/invController.js:101 | The add-vehicle view carries each starting value |
| InvController.InitialVehicleForm | controllers/invController.js:101 | Every vehicle field starts as "" except the image and thumbnail |
| InvController.InitialVehiclePictures | controllers/invController.js:101 | The image and thumbnail start as the two placeholder paths |
| InvController.BuildAddInventory | controllers/invController.js:91-103 | Renders the add-vehicle form with the starting values; an error from the list builder propagates |
| InvController.SubmittedValues | controllers/invController.js:115-117 | The insert receives the ten submitted fields in column order |
| InvController.RegisterInventory | controllers/invController.js:109-142 | One insert; success flashes make and model and redirects to `/inv/`; failure builds the list, then gives 501 and re-renders every submitted field |
| InvController.FailedVehicleEchoed | controllers/invController.js:133-140 | The failure view shows each of the ten fields as it was submitted |
| AccountController.RegisterRetryView | controllers/accountController.js:50-57 | The register view after a hashing failure shows the title, nav, errors, and the submitted names and email, and no password |
| AccountController.RegisterAccount | controllers/accountController.js:38-86 | A hashing failure gives 500 and the sticky register view with no store call; otherwise one insert, then 201 and the login view, or 501 and the register view |
| AccountController.LoginCookie | controllers/accountController.js:112-116 | The login cookie is always httpOnly and is secure iff `NODE_ENV` is not "development" |
| AccountController.LoginTokenHidesPassword | controllers/accountController.js:108-110 | The signed payload is the account record without `account_password`; every other field is kept and none is added |
| AccountController.AccountLogin | controllers/accountController.js:91-132 | An unknown email or a wrong password gives 400 and the login view with no cookie and the location unchanged; a match sets the cookie and redirects to `/account/`; a failing compare or sign is "Access Forbidden" |
| AccountController.BuildUpdateView | controllers/accountController.js:160-178 | When the requested account id is not strictly equal to the session id, it flashes and redirects to `/account/` without rendering; otherwise it renders the update form with the status and location unchanged; a throw changes nothing on the response |
| AccountController.UpdateAccount | controllers/accountController.js:184-230 | One update, then one re-read. Success flashes, signs the re-read record, resets the cookie and redirects. Failure renders the form with the record overlaid by the three submitted fields, with the status, location and cookies unchanged |
| AccountController.FailedUpdateOverlay | controllers/accountController.js:217-222 | The re-rendered record keeps every stored field except the three submitted ones, which are replaced |
| AccountController.UpdatePassword | controllers/accountController.js:236-264 | Always redirects to `/account/`; the store is not called when hashing fails |
| ReviewController.PendingErrors | controllers/reviewController.js:15-16 | Absent errors mean none are pending; an error set is pending iff it is non-empty; anything else throws |
| ReviewController.CheckedErrorsPending | middlewares/reviewValidation.js:27-34 | What the review middleware leaves in `res.locals.errors` is read as pending iff it found errors |
| ReviewController.OwnershipNeedsReviewAndIdentity | controllers/reviewController.js:58-85 | Ownership needs an existing review and a session id other than `NaN`; a review whose `account_id` equals the session id is owned |
| ReviewController.SubmitNewReview | controllers/reviewController.js:8-40 | With pending errors there is no insert: the text and rating are sticky, `inv_id` is set and the handler delegates to the detail view with the status and location unchanged. Otherwise one insert with the session's `account_id`, then a redirect to the vehicle detail page |
| ReviewController.BuildDeleteView | controllers/reviewController.js:45-72 | A missing review redirects to `/account/`; another owner's review redirects to its vehicle; only the owner gets the confirm view, with the status, location and flashes unchanged; a throw changes nothing on the response |
| ReviewController.DeleteReview | controllers/reviewController.js:77-102 | The delete query is made only for the review's owner, and every non-throwing path redirects to the submitted vehicle's detail page |
| ErrorPage.NotFoundError | server.js:52-56 | The fallback error has status 404 and "Sorry, we appear to have lost that page." |
| ErrorPage.ErrorStatus | server.js:65 | The status is `err.status`, or 500 when it is absent or zero |
| ErrorPage.ErrorMessage | server.js:66-68 | The error's message is shown for 404; the fixed crash text otherwise |
| ErrorPage.RenderError | server.js:70-76 | The page renders errors/error with the status, nav, title, message and stack |
| ErrorPage.MessageShownOnlyFor404 | server.js:66-68 | The error's own message is shown iff the status is 404 |
| ErrorPage.StackShownOnlyInDevelopment | server.js:75 | The stack is shown iff the app env is "development", including when `NODE_ENV` is unset |
| ErrorPage.TitleNamesStatus | server.js:71 | The title is the decimal status followed by " - Error" |
| ErrorPage.UnmatchedRequestPage | server.js:52-71 | An unmatched request gets status 404, title "404 - Error" and the lost-page message |
| ErrorPage.UnexpectedErrorPage | server.js:65-68 | An error without a status gets 500 and the crash message |
| ErrorPage.HandleError | server.js:61-77 | The handler sets the status and renders the page |

## Left out

- **The SQL store.** The pg pool and the SQL text are oracles. `models/account-model.js` is not part of this model. Its functions are taken to return a value, and any failure inside them is outside the model.
- **Foreign libraries.** bcrypt hashing and comparison are oracle parameters. JWT signing is modelled only as "an object and a non-empty secret give a token carrying the fields"; the `3600 * 1000` expiry and the token encoding are left out. Cookie and flash transport are lists on the response and request.
- **express-validator oracles.** `isEmail`, `normalizeEmail`, `isNumeric` and `isFloat({ min: 1 })` are oracle parameters; the price check is floating point. `checkExistingClassification` and `checkExistingEmail` are oracles too.
- **Clock and formatting.** `new Date().getFullYear()` is the `currentYear` parameter. `Intl.NumberFormat`, `formatCurrencyUSD` and `toLocaleDateString` are opaque functions.
- **Navigation markup.** The handlers that render take the nav markup as an input instead of calling `getNav`, so the model assumes that call returns. `getNav` as written throws (see Findings), and `Html.GetNav` models it over the row list.
- **AccountController.UpdatePassword:** takes no nav and leaves out the `getNav` call on the failure branch (controllers/accountController.js:259). Its result is unused. As written that call throws (see Findings), so the source's failure branch ends in a thrown error, not in the redirect the model states.
- **Numbers.** Database and JavaScript numbers are integers, plus `NaN` where `parseInt` can produce it. `err.status` is an optional integer.
- **Skipped handlers.** `buildLogin`, `buildRegister`, `buildAccountManagement` and `accountLogout` are not modelled. They render or clear a cookie with no decision to make.
- **Skipped utilities.** `checkLogin` is not defined in the files modelled here. `getReviewsByInventoryId` and `getInventoryItemById` are not called by the modelled handlers. The routes, `handleErrors`, async sequencing, server setup and `public/js/inv-update.js` are framework or browser plumbing.
- **`buildVehicleDetailView`.** `submitNewReview` delegates to it, but it is not defined in `controllers/invController.js`. The delegation is recorded as `delegatedTo`, and the call itself is outside the model.
- **Route names.** `routes/inventoryRoute.js:12-26` names controller functions that do not exist; routes are not modelled.
- **Markup and styling.** The vehicle-detail markup and CSS are not modelled beyond the field fallbacks in `Html.WrapVehicle`, and the grid markup beyond its item order.
- **Stores.** Each logs the queries it answers, and its answers come from fixed functions. The model does not say what the database holds before or after a query.
- **Html.NavRoundTrip, Html.NavItemRoundTrip:** stated only for names with no `"` and no `<`. The builders escape nothing, so other names make the markup ambiguous.
- **Html.SelectRoundTrip, Html.OptionRoundTrip:** stated only for names with no `<`, for the same reason.
- **Validator library lengths.** The validator library is not part of this model. Its `isLength` count is modelled as the library defines it: a character beyond U+FFFF counts once, and U+FE0E and U+FE0F are not counted.
- **Html.WrapVehicle:** returns the field texts the template shows, not the HTML string.
- **AccountController.UpdateAccount:** as written, the refreshed cookie has no `secure` flag, and its token is signed from the full re-read record with `account_password` included. The model states exactly that. It is a difference from login, not a proven bug.
- **AccountValidation.CheckEmailUnchanged:** the loose `!=` at `middlewares/accountValidation.js:30` is modelled as inequality of values. The two agree when the stored email is a string, which is the case for the account table.

## Findings

| source | as written | input that shows it | evidently intended | confidence | as-written member | corrected member |
|---|---|---|---|---|---|---|
| utilities/index.js:9-12 | `getNav` calls `forEach` on what `getClassifications` returns, which is the whole query-result object (models/inventory-model.js:17) | any request that renders a page: the result object has no `forEach`, so a `TypeError` is thrown | iterate `result.rows` and emit one nav item per classification, in order | not executed | Html.NavOfQueryResultThrows | Html.NavRoundTrip |
| utilities/inventory-validation.js:125 | `buildClassificationList` is called with the submitted `classification_id` at utilities/inventory-validation.js:125 and 147 and at controllers/invController.js:130, and with no argument at controllers/invController.js:94 | any failed vehicle submission: a string, or `undefined`, has no `forEach`, so a `TypeError` is thrown | pass the classification rows and emit one option per row, in order | not executed | Html.ClassificationListOfBodyFieldThrows | Html.SelectRoundTrip |
