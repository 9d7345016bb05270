# SocialWiki: page-creation guards and the session user, in Dafny

This project models two pieces of the SocialWiki server:

- the request validation of `WikiPageController`: `createWikiPage` (a chain of guards that
  ends in 412 Precondition Failed, 422 Unprocessable Entity, 500 or 200 with the stored page)
  and `searchWikiPage` (422 unless at least one criterion is given, then a query whose author
  filter is the ID of the single user with the given name, or null);
- the `User` entity: its fields, its three constructors, `toString`, and `asSessionUser`,
  the password-free copy kept in a session.

Files:

- `java_lang.dfy` (module `JavaLang`): Java's `long`, nullable references, `Long.compareTo`,
  and the decimal rendering of a `long` that string concatenation uses, with its reading back.
- `users.dfy` (module `Users`): the `User` class, the `UserFields` snapshot of its fields,
  the session projection `SessionView` and the rendering `Render` that `toString` produces.
- `wiki_pages.dfy` (module `WikiPages`): `CreateWikiPage` and `SearchWikiPage` as total
  functions from the request and the repositories to a response.

The controller's repositories are function parameters: `findByUserName` (the list of users
with a given user name), `save` (whose outcome, a `SaveResult`, is either the stored page or
the `IllegalArgumentException` the controller catches) and `findPages` (the page query).
`Long.parseLong` of each ID parameter is an input of type `ParseResult`. Users inside the controller are of an arbitrary type `U` with an
ID given by `idOf`, so the controller does not depend on which `User` class it imports.
`WikiPage.IS_ORIGINAL_ID` is taken to be -1: the comment at
src/main/java/SocialWiki/WikiPages/WikiPageController.java:72 allows -1 as the only
non-positive parent ID, and the original-page branch at lines 90-91 compares the parent ID
with `IS_ORIGINAL_ID`.

Each operation is stated against an independent reading: `CreateWikiPage` against the
predicate `WellFormed` (the parameter rules in plain comparisons, where the code uses
`compareTo`) and the page `Draft` the request asks for; the `User` methods against
`SessionView`; the rendering against `LongToString`, whose digits read back to the number.

## Model

| member | source | states |
|---|---|---|
| `JavaLang.CompareTo` | src/main/java/SocialWiki/WikiPages/WikiPageController.java:72-75 | `Long.compareTo` answers -1, 0 or 1, negative exactly when the first is smaller and zero exactly when they are equal |
| `JavaLang.Decimal` | src/main/java/Users/User.java:101 | the digits of a `long` written by concatenation: never empty, only digits, no leading zero except for zero |
| `JavaLang.DecimalRoundTrip` | src/main/java/Users/User.java:101 | reading back the written digits gives the number again |
| `JavaLang.LongToStringInjective` | src/main/java/Users/User.java:101 | two `long` values with the same rendering (sign included) are equal |
| `JavaLang.LongToStringHasNoNewline` | src/main/java/Users/User.java:101 | the rendering of the ID contains no line break, so it ends the first line of `toString` |
| `Users.SessionView` | src/main/java/Users/User.java:113-119 | the session copy's password is null, and putting the original password back gives the original fields exactly |
| `Users.SessionViewIdempotent` | src/main/java/Users/User.java:113-119 | taking the session copy of a session copy changes nothing |
| `Users.RenderFraming` | src/main/java/Users/User.java:100-107 | `toString` starts with "ID: ", the rendered ID and a line break, and ends with "\nPassword: " and the password text ("null" for null) |
| `Users.SameFirstLine` | src/main/java/Users/User.java:101-102 | a text's first line is unique: two break-free prefixes each followed by a break are equal |
| `Users.RenderDeterminesId` | src/main/java/Users/User.java:100-107 | two users whose `toString` texts are equal have the same ID |
| `Users.SessionRenderHidesPassword` | src/main/java/Users/User.java:100-119 | the session copy renders as the original with the password text replaced by "null"; the two texts agree exactly when the password is null or the string "null" |
| `Users.User.Default` | src/main/java/Users/User.java:60-61 | the default constructor leaves the ID 0 and every string null |
| `Users.User.constructor` | src/main/java/Users/User.java:71-77 | the all-attributes constructor sets user name, first name, last name, email and password from its arguments and leaves the ID 0 |
| `Users.User.Session` | src/main/java/Users/User.java:87-93 | the session constructor sets the ID and the four names and leaves the password null |
| `Users.User.AsSessionUser` | src/main/java/Users/User.java:113-119 | returns a new object whose fields are `SessionView` of this user's: the same ID, user name, first name, last name and email, a null password; this user, its password included, is unchanged |
| `Users.SessionUserTwice` | src/main/java/Users/User.java:113-119 | two successive session copies are distinct new objects with the same fields, and the original is untouched |
| `WikiPages.CreateWikiPage` | src/main/java/SocialWiki/WikiPages/WikiPageController.java:40-106 | 412 with a blank page exactly when the request breaks a parameter rule; otherwise 422 with no body exactly when the user name does not match one user; otherwise 500 with the unsaved page exactly when `save` rejects it, else 200 with the stored page; the page handed to `save` is `Draft` with the matched user |
| `WikiPages.UnparsableIdRejected` | src/main/java/SocialWiki/WikiPages/WikiPageController.java:52-62 | a parent or author ID that does not parse gives 412 with a blank page, whatever else the request holds |
| `WikiPages.TitleAndContentRules` | src/main/java/SocialWiki/WikiPages/WikiPageController.java:66-71 | a null or empty title and a null content give 412; an empty content is rejected with 412 exactly when any other content would be |
| `WikiPages.ParentIdRule` | src/main/java/SocialWiki/WikiPages/WikiPageController.java:72-74 | a parent ID of 0 or below -1 gives 412 with a blank page, whatever else the request holds |
| `WikiPages.ParentIdAccepted` | src/main/java/SocialWiki/WikiPages/WikiPageController.java:72-74 | when the other parameters are acceptable, the request escapes 412 exactly when the parent ID is positive or -1 |
| `WikiPages.RejectionIgnoresRepositories` | src/main/java/SocialWiki/WikiPages/WikiPageController.java:64-86 | for a request that breaks a parameter rule the response is the same whatever the user lookup and the save do: the lookup comes after every 412 check |
| `WikiPages.UnknownAuthorIgnoresSave` | src/main/java/SocialWiki/WikiPages/WikiPageController.java:79-86 | when the user name does not match exactly one user the response does not depend on the page repository |
| `WikiPages.ParentSlot` | src/main/java/SocialWiki/WikiPages/WikiPageController.java:88-96 | the parent position of the new page holds the author ID when the parent ID is `IS_ORIGINAL_ID` and the parent ID otherwise, and is always positive |
| `WikiPages.SearchWikiPage` | src/main/java/SocialWiki/WikiPages/WikiPageController.java:113-139 | 422 with no body exactly when title, author and content are all null or empty; otherwise 200 with the query's pages, queried with the matched user's ID when exactly one user matches the author name and with null otherwise |
| `WikiPages.UnmatchedAuthorIsIgnored` | src/main/java/SocialWiki/WikiPages/WikiPageController.java:129-135 | an author name that matches no user or several does not narrow the search: the answer equals the one with no author given (when the null name matches no single user) |

## Left out

- The Spring and servlet plumbing (`@RestController`, the mappings, `HttpServletRequest`,
  `ResponseEntity`): a request is a record of its parameters and a response a status and a body.
- The repositories `findByUserName`, `save` and `findByTitleAndAuthorIDAndContent`: they are
  function parameters with no persistence behind them; in particular what
  `findByUserName(null)` returns is left to the caller of the model.
- Runtime exceptions other than the `IllegalArgumentException` caught around `save`: any
  other exception thrown by `save`, `findByUserName` or `findByTitleAndAuthorIDAndContent`
  propagates out of the controller and yields none of the modelled responses; the model
  treats every repository call as returning normally.
- `Long.parseLong`: its outcome for each ID parameter is an input; Java's numeric parsing is
  not specified.
- WikiPage.java is not part of this model: a page is the blank page or the four values the
  controller passes to its constructor; its other fields and the IDs `save` assigns are not
  modelled, and `IS_ORIGINAL_ID` is taken to be -1.
- `Users.User.Session`: a null `Long id` argument would throw on unboxing; the model takes a
  non-null ID, which is all `asSessionUser` ever passes.
- Lombok's getters and setters are plain field reads and writes of the `User` class; the JPA
  annotations (`@Id`, `@GeneratedValue`, `@Column(unique = true)`) are database behaviour and
  are not modelled, so nothing enforces unique user names or emails.
- The declared package of `User` (`Users`) differs from the one the controller imports
  (`SocialWiki.Users`); the controller's users are therefore of an abstract type.
- The browser scripts src/main/resources/public/search_script.js and
  src/main/resources/public/general_page.js: widget construction, navigation and AJAX calls,
  with sorting delegated to the widget library; they hold no logic with a contract of its own.
