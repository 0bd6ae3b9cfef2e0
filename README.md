# Catalog front-end: query, routing and form model

A Dafny model of the core of a catalog front-end that lists apps, games
and software and offers an administration surface. The model covers:

- the public catalog in `App.tsx`:
  - the route table that maps paths to list and detail pages;
  - the list page's query: a category filter, a case-insensitive name
    search, then a stable sort by downloads, upload date or name;
  - the detail page's lookup by id, and where its buttons lead;
  - the layout's state: the search text, the sort key and whether the
    sort dialog is open.
- the admin item form in `pages/admin/AppFormPage.tsx`:
  - the new-item defaults and the edit-mode load;
  - one field update per input event, including `parseInt(value, 10) || 0`
    for the downloads field;
  - submit, which makes one store call and returns to the management list;
  - cancel, and the confirmed delete of the management list.
- the login page in `pages/LoginPage.tsx`: the remembered redirect target,
  the submit that redirects only on success, and the error line.

Record types follow `types.ts` (module `Types`). Each file is one module:

| file | module | what it holds |
|---|---|---|
| `types.dfy` | `Types` | `AppItem`, `AppCategory`, `SortOption`, the form record, router and store call records |
| `seqs.dfy` | `Seqs` | `Array.prototype.filter` and `String.prototype.includes` with their properties |
| `sorting.dfy` | `Sorting` | `Array.prototype.sort(comparefn)` as a stable insertion sort, ordered, stable and unique |
| `parse_int.dfy` | `JsParseInt` | `parseInt(s, 10)` as in section 19.2.5 of ECMA-262, and decimal display of integers |
| `catalog.dfy` | `Catalog` | routes, the list query, the detail lookup and the `MainLayout` class |
| `app_form.dfy` | `AppForm` | the form's field updates and the `AppFormPage` class |
| `login.dfy` | `Login` | the redirect target and the `LoginPage` class |

Components that change state step by step are classes: `MainLayout`,
`AppFormPage` and `LoginPage`. Their `useState` variables are fields, and
their handlers are methods with `modifies this`. Calls into collaborators
that are not part of this model are appended to logs held in fields:
`navigate` goes to `navigations`, the store's `addApp`, `updateApp` and
`deleteApp` go to `storeCalls`, and the auth gate's `login` goes to
`loginCalls`. What such a collaborator answers is a method parameter: the
item `getAppById` found, and whether `login` accepted. The list page's
filter and sort are pure, so they are functions.

The catalog data is a parameter `items` of every query. Three library
calls the list page depends on are the fields of a `Locale` value:
`toLowerCase` (`lower`), `localeCompare(_, 'ar')` (`collate`) and
`new Date(_).getTime()` on an upload date (`time`). The sort by name is
proved ordered and stable only for a `collate` that is a total preorder
(`Sorting.Consistent`). The downloads and date keys need no assumption:
their comparators are differences of integers.

The library's sort algorithm is not visible. `Sort` is a stable insertion
sort, and `Sorting.SortCharacterized` shows why that is enough: under a
consistent comparator, only one sequence is both ordered and stable, so
every stable sort returns the same result.

## Model

| member | source | states |
|---|---|---|
| `Types.WithId` | pages/admin/AppFormPage.tsx:46 | `{ ...formData, id }` carries the given id and exactly the form's other fields |
| `Seqs.FilterMembers` | App.tsx:74-78 | the filter keeps an element exactly when it satisfies the predicate, and returns nothing from outside the input |
| `Seqs.FilterIsSubsequence` | App.tsx:74-78 | the filter result keeps the input's order |
| `Seqs.FilterCount` | App.tsx:74-78 | the filter keeps every occurrence of an accepted element and none of a rejected one |
| `Seqs.FilterAgrees` | App.tsx:74-78 | two predicates that agree on the input's elements filter it alike |
| `Seqs.FilterKeepsAll` | App.tsx:74-78 | a filter that accepts every element returns its input |
| `Seqs.Includes` | App.tsx:76 | every string includes the empty string |
| `Seqs.IncludesAt` | App.tsx:76 | `includes` is true exactly when the search text occurs at some position of the name |
| `Sorting.InsertPermutes` | App.tsx:80 | inserting adds the element and keeps every other one |
| `Sorting.SortPermutes` | App.tsx:80 | the sorted copy is a permutation of the filtered items |
| `Sorting.InsertSorted` | App.tsx:80 | inserting into an ordered sequence keeps it ordered |
| `Sorting.SortSorted` | App.tsx:80 | the sort's output is ordered by a consistent comparator |
| `Sorting.InsertKeepsTies` | App.tsx:80 | an inserted element lands before every element tied with it |
| `Sorting.SortStable` | App.tsx:80 | elements the comparator ties keep their relative order |
| `Sorting.SortedStableUnique` | App.tsx:80 | two ordered sequences that keep each tie class in the same order are equal |
| `Sorting.SortCharacterized` | App.tsx:80 | a sequence is the sort of `s` if and only if it is ordered and keeps the order of each tie class of `s` |
| `JsParseInt.TrimStart` | pages/admin/AppFormPage.tsx:39 | what remains does not start with StrWhiteSpaceChar |
| `JsParseInt.TrimStartRemovesWhiteSpace` | pages/admin/AppFormPage.tsx:39 | what `parseInt` skips is a prefix of the input made only of white space |
| `JsParseInt.LeadingDigits` | pages/admin/AppFormPage.tsx:39 | the digits read form the longest all-digit prefix |
| `JsParseInt.NatDigits` | pages/admin/AppFormPage.tsx:86 | the decimal form of a number is a non-empty run of digits, with no leading zero unless the number is 0 |
| `JsParseInt.NatDigitsValue` | pages/admin/AppFormPage.tsx:86 | the decimal digits of `n` denote `n` |
| `JsParseInt.LeadingDigitsOfDigits` | pages/admin/AppFormPage.tsx:39 | `parseInt` reads a digit run up to the first non-digit |
| `JsParseInt.TrimStartSkips` | pages/admin/AppFormPage.tsx:39 | leading white space is dropped whatever follows it |
| `JsParseInt.ParseIntSkipsWhiteSpace` | pages/admin/AppFormPage.tsx:39 | leading white space does not change what `parseInt` returns |
| `JsParseInt.SignOrDigitStart` | pages/admin/AppFormPage.tsx:39 | a string that starts with a sign or a digit has no white space to skip, its digits follow the sign, and it starts with `-` exactly when the sign is `-` |
| `JsParseInt.ParseTrimmedDigits` | pages/admin/AppFormPage.tsx:39 | once white space is gone, the result is the value of the digits after the sign, negated after `-` |
| `JsParseInt.ParseIntDigitPrefix` | pages/admin/AppFormPage.tsx:39 | after an optional sign, `parseInt` returns the value of the leading digits, negated after `-`, and ignores what follows them |
| `JsParseInt.ParseIntNoDigits` | pages/admin/AppFormPage.tsx:39 | without a digit after the optional sign, `parseInt` gives NaN and the field falls back to 0 |
| `JsParseInt.ParseDownloadsRoundTrip` | pages/admin/AppFormPage.tsx:39 | the number the downloads field shows parses back to the same number |
| `Catalog.Route` | App.tsx:26-34 | a detail route's id is a non-empty path segment |
| `Catalog.RouteRoundTrip` | App.tsx:26-34 | each page has one path: `Route` and `PathOf` are inverse in both directions |
| `Catalog.FilterItemsMembers` | App.tsx:74-78 | an item is kept if and only if it is in the page's category and its lower-cased name includes the lower-cased search text |
| `Catalog.FilterItemsSubsequence` | App.tsx:74-78 | the kept items come in catalog order |
| `Catalog.EmptySearchKeepsCategory` | App.tsx:74-78 | an empty search keeps every item of the category |
| `Catalog.EmptySearchAllCategories` | App.tsx:28 | the index page with an empty search lists the whole catalog |
| `Catalog.ComparatorConsistent` | App.tsx:80-90 | each of the three comparators is a total preorder; only the name comparator needs a consistent collation |
| `Catalog.QueryPermutation` | App.tsx:74-90 | the list page shows exactly the kept items, each as often as in the catalog |
| `Catalog.QueryOrdered` | App.tsx:80-90 | downloads descending or upload time descending with no assumption, names ascending by a consistent collation |
| `Catalog.QueryStable` | App.tsx:80-90 | items the comparator ties keep their catalog order |
| `Catalog.QueryDownloadsTiesInCatalogOrder` | App.tsx:86-88 | items with equal download counts keep their catalog order |
| `Catalog.DownloadsOrderExample` | App.tsx:86-88 | downloads 50, 200 and 10 are listed as 200, 50, 10 |
| `Catalog.FindIndex` | App.tsx:98 | the position of the first item with the id, or none when no item has it |
| `Catalog.Detail` | App.tsx:95-100 | the not-found screen shows exactly when no item has the id; otherwise the first item with that id is shown |
| `Catalog.DetailNavigation` | App.tsx:100-114 | the not-found screen leads to `/` exactly when no item matches; otherwise the only action is one step back |
| `Catalog.MainLayout.constructor` | App.tsx:38-41 | empty search, dialog closed, sort by downloads |
| `Catalog.MainLayout.SetSearchQuery` | App.tsx:45-47 | sets the search text and nothing else |
| `Catalog.MainLayout.OpenFilter` | App.tsx:48 | opens the sort dialog and nothing else |
| `Catalog.MainLayout.CloseFilter` | App.tsx:56 | closes the sort dialog and nothing else |
| `Catalog.MainLayout.ChangeSort` | App.tsx:58-61 | sets the sort key, closes the dialog, keeps the search text |
| `Catalog.MainLayout.Shown` | App.tsx:51 | the outlet's list holds exactly the items kept under the current search text, ordered by the layout's current sort key |
| `AppForm.ApplyChange` | pages/admin/AppFormPage.tsx:35-41 | the named field takes the event's value, parsed for downloads; every other field is unchanged |
| `AppForm.CategoryValue` | pages/admin/AppFormPage.tsx:71-75 | the option value of each category reads back as that category |
| `AppForm.ApplyChangeShownValue` | pages/admin/AppFormPage.tsx:35-41 | re-entering the value a control shows leaves the form unchanged |
| `AppForm.NewItemForm` | pages/admin/AppFormPage.tsx:13-21 | the new-item defaults: empty texts, category app, zero downloads, the default icon, today's date |
| `AppForm.SubmitCall` | pages/admin/AppFormPage.tsx:43-51 | an update with the route's id exactly in edit mode, carrying the form's fields; otherwise an addition of the form |
| `AppForm.AppFormPage.constructor` | pages/admin/AppFormPage.tsx:12-21 | the page starts with the defaults and no calls made |
| `AppForm.AppFormPage.LoadForEdit` | pages/admin/AppFormPage.tsx:23-33 | in edit mode a found item replaces the form and a missing one leads to the management list; in create mode nothing happens |
| `AppForm.AppFormPage.HandleChange` | pages/admin/AppFormPage.tsx:35-41 | the form becomes `ApplyChange` of the old form; no call is made |
| `AppForm.AppFormPage.HandleSubmit` | pages/admin/AppFormPage.tsx:43-51 | run only once the required text controls are filled (lines 65, 79, 90, 96, 101): exactly one store call, then a navigation to the management list |
| `AppForm.AppFormPage.Cancel` | pages/admin/AppFormPage.tsx:105 | back to the management list with no store call |
| `AppForm.DeleteCalls` | pages/admin/ManageAppsPage.tsx:13-17 | a delete call exactly when the user confirms |
| `Login.RedirectTarget` | pages/LoginPage.tsx:12 | the remembered path when it is present and non-empty, `/` otherwise; never empty |
| `Login.ErrorLine` | pages/LoginPage.tsx:59 | the error line is shown exactly when the error is non-empty, and shows the error |
| `Login.LoginPage.constructor` | pages/LoginPage.tsx:5-12 | empty fields, no calls, redirect target from the location |
| `Login.LoginPage.SetUsername` | pages/LoginPage.tsx:40 | sets the username only |
| `Login.LoginPage.SetPassword` | pages/LoginPage.tsx:54 | sets the password only |
| `Login.LoginPage.HandleSubmit` | pages/LoginPage.tsx:14-19 | run only once both required fields are filled (lines 36, 50): one `login` call with the fields; a replacing navigation to the target exactly when it is accepted |
| `Login.LoginPage.GoHome` | pages/LoginPage.tsx:71 | a navigation to `/` and nothing else |
| `Login.SignInScenario` | pages/LoginPage.tsx:12-19 | typing credentials and being accepted returns to the remembered path, replacing the history entry |

## Left out

- The catalog store (`addApp`, `updateApp`, `deleteApp`, `getAppById`) and the auth gate (`login`, `error`, the session) are not part of this model. The pages' calls to them are recorded in logs; what they answer is a parameter.
- The catalog data (`MOCK_DATA` and the store's list) is not part of this model; every query takes the item list as a parameter.
- `toLowerCase`, `localeCompare(_, 'ar')` and `new Date(_).getTime()` are parameters (`Catalog.Locale`). Upload dates are mapped to integers, so an unparsable date, for which JavaScript compares with NaN, is not modelled.
- `Catalog.QueryOrdered`: the name order is proved only for a collation that is a total preorder; a collation that is not one is not covered. The downloads and date orders carry no such assumption.
- `Sort` is one stable sort. The library's own algorithm is not visible, and an unstable or inconsistent-comparator behaviour is not covered.
- Downloads are unbounded integers. JavaScript numbers are doubles, so precision loss above 2^53 is not modelled. Neither is the exponent notation `String(n)` uses for very large numbers, which `JsParseInt.ParseDownloadsRoundTrip` does not cover.
- Strings are sequences of characters, not of UTF-16 code units.
- `Catalog.Route`: React Router's own matching is not modelled. That covers case-insensitive matching, trailing slashes and percent-decoding of `:id`. Paths the table does not list map to `NoPage`.
- The admin routes and the auth-gated routing are not in the modelled `App.tsx`, so the redirect to `/login` is not modelled. Only the login page's side is.
- The `default:` branch of the sort switch is unreachable: `SortOption` is a closed datatype with three values, and downloads is its own case.
- The welcome splash timer, `toLocaleString` on download counts and all markup are not modelled.
- `AppForm.AppFormPage.LoadForEdit` stores the found item without its id. The source stores the whole item, id included. The difference never shows, because submit in edit mode replaces the id with the route's id.
- Today's date for the new-item form is a parameter (`today`), since the clock is outside the model.
- Effect re-runs when `getAppById` or `navigate` change identity are not modelled; `LoadForEdit` is one run of the effect.
- `AppForm.ApplyChange` requires a category event to carry one of the three option values. The `<select>` offers only those, and a free-typed category cannot occur.
- `window.confirm` is the boolean `confirmed` of `AppForm.DeleteCalls`.
