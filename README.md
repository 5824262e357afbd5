# NoorSales: loading, page access and translation

A Dafny model of three small pieces of logic in the NoorSales sales and
inventory application, a React single-page app that keeps its data in the
browser's storage:

- **Loading the saved state** (`App`, from `App.tsx`). At start-up the
  application root reads every stored collection (products, customers,
  invoices, expenses, users), the signed-in user and the settings. It then
  builds its initial state tolerantly. A missing collection stays empty.
  Invoices written by older versions get `status` back-filled as unpaid and
  `returns` as an empty list. With no stored users, a default administrator is
  seeded. Stored settings have the legacy currency label "دينار بحريني"
  rewritten to `BHD` and are then laid over the built-in defaults.
- **Page access** (`App`). With nobody signed in, the login page is shown
  whatever the path. A signed-in user gets the dashboard, products, customers,
  invoices, expenses and reports routes. The settings route exists only for an
  administrator.
- **Translation** (`LanguageContext`, from `LanguageContext.tsx`). `t` looks a
  key up in the table of the current language. A missing or empty entry falls
  back to the key itself. Then, for each replacement in key order, every
  `{name}` placeholder is replaced by the value's text. The start-up language
  is the stored code, or Arabic when none is stored. The text direction is
  right-to-left exactly for Arabic.
- **Records** (`Types`, from `types.ts`). Each interface becomes a datatype.
  Optional fields (`field?: T`) are `Option<T>`. Fields that may be `null` are
  `Nullable<T>`, so "absent" and "null" stay distinct (`Settings.instagramQR`
  is `Option<Nullable<string>>`). `status` and `role` are two-constructor
  datatypes, and so is the language. An invoice line keeps `productId` next to
  the copied `productName` and `price`. An invoice keeps `customerId` next to
  the copied `customerName`. `Invoice.returns` is an optional list of lines of
  the same type as `items`; it is named `returned` here because `returns` is a
  Dafny keyword.

Files: `wrappers.dfy` (the `Option` type), `types.dfy`, `app.dfy`,
`language_context.dfy`.

The administrator is seeded only when no users entry is stored at all; a
stored empty list stays empty (`App.LoadEmptyUsers`, App.tsx:57-58).

Proof structure for `t`:

- `ReplaceAll` models one global, literal replace. It scans left to right and
  resumes after each replaced occurrence.
- `ReplaceAllConcat` says when the two halves of a string are replaced
  independently.
- `ReplaceAllAt` is the central fact. Take brace-free names, and split the
  text at any placeholder `{q}`. The step for `{p}` replaces that placeholder
  by the value when `q == p`, keeps it when `q != p`, and treats the text on
  either side on its own.
- `ApplyReplacements` is the left fold over the replacements. It is the
  specification of the loop in `Translate`.

## Model

| member | source | states |
|---|---|---|
| `Types.ParseStatus` | types.ts:37 | exactly the literals `paid` and `unpaid` are statuses, and each reads back to the status it names |
| `Types.ParseRole` | types.ts:68 | exactly `admin` and `employee` are roles, each reading back to the role it names |
| `Types.ParseLanguage` | types.ts:69 | exactly `ar` and `en` are language codes, each reading back to its language |
| `App.NormalizeInvoice` | App.tsx:45-49 | a missing status becomes unpaid and a present one is kept; missing returns become the empty list and present ones are kept; every other field is copied unchanged |
| `App.NormalizeInvoices` | App.tsx:45-49 | the result has the input's length and order, each element the back-filled input element, and every result has its returns list present |
| `App.NormalizeSavedInvoice` | App.tsx:45-49 | reading back an invoice whose returns are present gives the same invoice |
| `App.NormalizeInvoicesOfNormalized` | App.tsx:45-49 | storing and re-loading a list of back-filled invoices gives the same list |
| `App.NormalizeInvoicesIdempotent` | App.tsx:45-49 | back-filling an already back-filled list changes nothing |
| `App.LoadUsers` | App.tsx:56-70 | with no stored users the list is exactly one record, id `default-admin-01`, username `admin`, role admin; stored users are taken as they are |
| `App.MigrateCurrency` | App.tsx:80-82 | a stored currency equal to the legacy label becomes `BHD`; any other value, or its absence, passes through, and no other field changes |
| `App.MergeSettings` | App.tsx:83 | every field present in the stored record is taken from it and every absent field keeps the previous value |
| `App.MergeNothing` | App.tsx:83 | overlaying a record with no fields leaves the settings unchanged |
| `App.MergeComplete` | App.tsx:83 | a stored record with every field present replaces the previous settings entirely |
| `App.LoadSettings` | App.tsx:77-84 | no stored settings give the defaults; otherwise each field present in the stored record (the currency after migration) is the loaded field and each absent field keeps the default; the loaded currency is never the legacy label and is `BHD` when the stored one was missing or legacy; every optional field is present after loading |
| `App.LoadSettingsIdempotent` | App.tsx:77-84 | storing the loaded settings and loading them again gives the same settings |
| `App.Load` | App.tsx:35-85 | missing collections are empty and stored ones are taken as they are; invoices are back-filled element by element with order and length kept; users are seeded only when missing; the session user is taken as stored; settings are migrated and overlaid on the defaults |
| `App.LoadNothingSaved` | App.tsx:17-32 | with nothing stored the state is the initial one (empty collections, nobody signed in, default settings) plus the seeded administrator |
| `App.LoadEmptyUsers` | App.tsx:57-58 | a stored empty user list stays empty: no administrator is seeded |
| `App.Routes` | App.tsx:160-168 | every signed-in user gets the six routes `/`, `/products`, `/customers`, `/invoices`, `/expenses`, `/reports` with their pages; an administrator gets `/settings` after them and an employee nothing more; so a settings route is present if and only if the role is admin; no route leads to the login page; paths are distinct |
| `App.MatchRoute` | App.tsx:160-168 | nothing is matched exactly when no route has the path; a match is the page of the first route with that path |
| `App.MatchFirst` | App.tsx:160-168 | with distinct paths, each route's own path leads to its page |
| `App.Render` | App.tsx:131-168 | with nobody signed in the login page is shown for every path; a signed-in user never sees it, and sees the settings page exactly at the settings path when an administrator |
| `App.OfferedPages` | App.tsx:131-167 | with nobody signed in only the login page is offered; a signed-in user is offered exactly the dashboard, products, customers, invoices, expenses and reports pages, plus the settings page if and only if the role is admin |
| `App.OfferedSignedIn` | App.tsx:160-168 | by role: the six common pages for everyone signed in, plus the settings page exactly for an administrator |
| `App.RenderSignedIn` | App.tsx:161-166 | a signed-in user of either role sees the dashboard at `/`, and the products, customers, invoices, expenses and reports pages at their paths |
| `App.RenderShowsOffered` | App.tsx:131-168 | a page is offered if and only if some path shows it |
| `LanguageContext.InitialLanguage` | LanguageContext.tsx:22-24 | nothing stored, or the empty string, gives Arabic; a stored language code gives that language; any other stored string is not a language |
| `LanguageContext.Dir` | LanguageContext.tsx:29 | the direction is right-to-left exactly when the language is Arabic and left-to-right otherwise |
| `LanguageContext.Lookup` | LanguageContext.tsx:33 | a present non-empty entry is returned; a missing or empty entry gives the key itself |
| `LanguageContext.Digits` | LanguageContext.tsx:37 | the digits written for a whole number denote that number, with no leading zero |
| `LanguageContext.ToText` | LanguageContext.tsx:37 | a string value is its own text; a whole number is written as the decimal digits denoting it, with no leading zero (zero itself is `0`), and with a leading minus sign when negative |
| `LanguageContext.ReplaceAll` | LanguageContext.tsx:36-37 | one global, literal replace scanning left to right; replacing a pattern by itself changes nothing; its behaviour is specified by `ReplaceAllNoOccurrence`, `ReplaceAllConcat`, `ReplacePlaceholder` and `ReplaceAllAt` |
| `LanguageContext.ApplyReplacements` | LanguageContext.tsx:35-38 | the fold of the replacement steps in key order; no replacements leave the text unchanged; it is specified by `ApplyReplacementsStep`, `ApplyReplacementsFirst`, `ApplyReplacementsKeepsOthers` and `ApplyReplacementsPlainText` |
| `LanguageContext.ApplyReplacementsStep` | LanguageContext.tsx:35-38 | the fold over one more key is one more replace step on the fold so far, as each pass of the loop does |
| `LanguageContext.ReplaceAllNoOccurrence` | LanguageContext.tsx:36-37 | a string in which the placeholder does not occur is left unchanged by its step |
| `LanguageContext.ReplaceAllConcat` | LanguageContext.tsx:36-37 | when no occurrence straddles the boundary, the two halves of a string are replaced independently |
| `LanguageContext.ReplacePlaceholder` | LanguageContext.tsx:36-37 | the placeholder `{q}` alone becomes the value in the step for `{q}` and is kept in the step for any other brace-free name |
| `LanguageContext.ReplaceAllAt` | LanguageContext.tsx:35-38 | split at any placeholder: the step for `{p}` turns that occurrence of `{p}` into the value, keeps a placeholder with another name, and treats the text on either side independently |
| `LanguageContext.ApplyReplacementsFirst` | LanguageContext.tsx:35-38 | replacements apply one after another in key order: the first replacement is applied before the rest, which see its output |
| `LanguageContext.ChainedReplacement` | LanguageContext.tsx:35-38 | an illustration of `ApplyReplacementsFirst` on one input: the value `{b}` inserted for `{a}` is filled in by the later replacement for `b` |
| `LanguageContext.ApplyReplacementsKeepsOthers` | LanguageContext.tsx:35-38 | a placeholder whose name is not among the replacement keys survives all the steps, with the text on either side replaced independently |
| `LanguageContext.ApplyReplacementsPlainText` | LanguageContext.tsx:35-38 | text without an opening brace is returned unchanged by any replacements |
| `LanguageContext.Translate` | LanguageContext.tsx:32-41 | with no replacements the result is the looked-up string unchanged; otherwise it is the looked-up string with the replacements applied in order |
| `LanguageContext.TranslateFallback` | LanguageContext.tsx:33 | when the current table has no entry for the key, or the entry is empty, a key without braces is returned as itself, whatever the replacements |

## Left out

- Invoice creation, returns, stock adjustment and invoice numbering: they are not in the files modelled. `App.tsx` only imports the invoices page (App.tsx:7) and passes the state setters to the pages (App.tsx:121-129).
- Reading and writing `localStorage` and `sessionStorage`, and `JSON.parse`/`JSON.stringify`: these are I/O. Every stored collection, the session user and the settings are `Option` inputs of `App.Load`, already decoded into records. The stored `language` entry (LanguageContext.tsx:23) is the `Option` input of `LanguageContext.InitialLanguage`.
- The write-back effects (App.tsx:87-119), including the rule that users are written only when the list is non-empty: they are persistence side effects.
- React state, memoisation, context providers, routing components, the sidebar toggle and the `useTranslation` guard: UI plumbing. `App.Render` models only which page a path leads to.
- Setting `document.documentElement.lang` and `dir`: only the choice of direction (`Dir`) is modelled.
- App.NormalizeInvoice: a stored status or returns value that is present but falsy (`null`, `""`) is modelled as absent, and stored values outside the declared types cannot be represented, because the records are typed. This covers another status string, extra invoice keys that `...inv` carries along (App.tsx:46), and extra settings keys that the settings spread carries along (App.tsx:83).
- App.MatchRoute: paths are compared by exact equality. The router library's own matching rules (case-insensitive, trailing slash ignored) belong to that library, which is outside this model.
- LanguageContext.InitialLanguage: a stored string that is neither `ar` nor `en` is returned as `None`; what `t` and the direction rule then do with such a value is not modelled, because the source passes it on through an unchecked cast.
- LanguageContext.ReplaceAll: placeholders are replaced literally. Regular-expression metacharacters in placeholder names and `$` patterns in replacement strings are not modelled.
- LanguageContext.Translate: replacements are given as a sequence in the order `Object.keys` yields them. A key of the form `n`, `n,` or `n,m` (n and m strings of digits) turns `{key}` into a regular-expression quantifier, so the source throws a `SyntaxError`. The model replaces such a placeholder literally.
- LanguageContext.ToText: numbers are whole and written in plain decimal. The text of fractional numbers is not modelled, nor the exponent notation `String` uses when the magnitude is at least 1e21 (`1e+21`).
- The contents of the Arabic and English translation tables: they are arbitrary maps from key to text.
- `AppContextType` (types.ts:73-88): it holds only React dispatcher signatures.
- Money amounts and quantities are JavaScript numbers and are modelled as `int`; floating point is not modelled.
