/** The decision logic of the wiki page controller: the guard chain of `createWikiPage` and
    the criteria check of `searchWikiPage`. Request parameters arrive already read, the
    outcome of `Long.parseLong` on each ID parameter is an input, and the repositories are
    function parameters: `findByUserName` gives the users with a user name,
    `save` stores a page or rejects it, and `findPages` answers the page query. Users are of
    an arbitrary type `U`; `idOf` gives a user's ID. */
module WikiPages {
  import opened JavaLang

  /** `WikiPage.IS_ORIGINAL_ID`, the parent ID of a page that is not an edit of another one.
      WikiPage.java is not part of this model; the controller's own comment says a parent
      ID must be positive or -1, and -1 is the value used here. */
  const IS_ORIGINAL_ID: Long := -1

  /** The HTTP statuses the controller answers with: 200, 412, 422 and 500. */
  datatype Status = Ok | PreconditionFailed | UnprocessableEntity | InternalServerError

  /** A response: a status and a body that may be null. */
  datatype Response<B> = Response(status: Status, body: Nullable<B>)

  /** The pages the controller builds: `new WikiPage()`, or a page from the four-argument
      constructor (title, content, the ID in the parent position, author). */
  datatype WikiPage<U> =
    | BlankPage
    | Page(title: string, content: string, parentID: Long, author: U)

  /** What `Long.parseLong` does with a request parameter (a missing one included). */
  datatype ParseResult = NumberFormatException | Parsed(value: Long)

  /** The outcomes of the page repository's `save` that the controller handles: the stored
      page, or the `IllegalArgumentException` it catches. */
  datatype SaveResult<U> = Saved(page: WikiPage<U>) | IllegalArgument

  datatype CreateRequest = CreateRequest(
    title: Nullable<string>,
    content: Nullable<string>,
    username: Nullable<string>,
    parentID: ParseResult,
    authorID: ParseResult)

  datatype SearchRequest = SearchRequest(
    title: Nullable<string>,
    author: Nullable<string>,
    content: Nullable<string>)

  /** The parameter rules of page creation, stated directly: both IDs parse, the title is
      a non-empty string, the content is a string (possibly empty), the parent ID is
      positive or -1, and the author ID is positive. */
  predicate WellFormed(req: CreateRequest) {
    && req.parentID.Parsed?
    && req.authorID.Parsed?
    && req.title.Ref? && |req.title.value| > 0
    && req.content.Ref?
    && (req.parentID.value > 0 || req.parentID.value == -1)
    && req.authorID.value > 0
  }

  /** The page a well-formed request asks for, by its author `user`: an original page
      carries the author ID in the parent position, an edit carries its parent's ID. */
  function Draft<U>(req: CreateRequest, user: U): WikiPage<U>
    requires WellFormed(req)
  {
    var parent := req.parentID.value;
    Page(req.title.value, req.content.value,
         if parent == -1 then req.authorID.value else parent, user)
  }

  /** `createWikiPage`: the checks run in the order of the source, each failing one ending
      the request. Rejected parameters give 412 with a blank page; then a user name that
      does not name exactly one user gives 422 with no body; then a page that the
      repository refuses gives 500 with the unsaved page, and a stored page gives 200. */
  function CreateWikiPage<U>(
    req: CreateRequest,
    findByUserName: Nullable<string> -> seq<U>,
    save: WikiPage<U> -> SaveResult<U>): (r: Response<WikiPage<U>>)
    ensures r.status == PreconditionFailed <==> !WellFormed(req)
    ensures r.status == PreconditionFailed ==> r.body == Ref(BlankPage)
    ensures r.status == UnprocessableEntity <==>
              WellFormed(req) && |findByUserName(req.username)| != 1
    ensures r.status == UnprocessableEntity ==> r.body == Null
    ensures r.status == InternalServerError <==>
              WellFormed(req) && |findByUserName(req.username)| == 1 &&
              save(Draft(req, findByUserName(req.username)[0])).IllegalArgument?
    ensures r.status == InternalServerError ==>
              r.body == Ref(Draft(req, findByUserName(req.username)[0]))
    ensures r.status == Ok ==>
              WellFormed(req) && |findByUserName(req.username)| == 1 &&
              var draft := Draft(req, findByUserName(req.username)[0]);
              save(draft).Saved? && r.body == Ref(save(draft).page)
  {
    match req.parentID
    case NumberFormatException => Response(PreconditionFailed, Ref(BlankPage))
    case Parsed(parentID) =>
      match req.authorID
      case NumberFormatException => Response(PreconditionFailed, Ref(BlankPage))
      case Parsed(authorID) =>
        if IsNullOrEmpty(req.title) then Response(PreconditionFailed, Ref(BlankPage))
        else if req.content.Null? then Response(PreconditionFailed, Ref(BlankPage))
        else if CompareTo(parentID, 0) == 0 || CompareTo(parentID, -1) < 0 then
          Response(PreconditionFailed, Ref(BlankPage))
        else if CompareTo(authorID, 0) <= 0 then Response(PreconditionFailed, Ref(BlankPage))
        else
          var authorQuery := findByUserName(req.username);
          if |authorQuery| != 1 then Response(UnprocessableEntity, Null)
          else
            var user := authorQuery[0];
            var newPage :=
              if CompareTo(parentID, IS_ORIGINAL_ID) == 0
              then Page(req.title.value, req.content.value, authorID, user)
              else Page(req.title.value, req.content.value, parentID, user);
            match save(newPage)
            case IllegalArgument => Response(InternalServerError, Ref(newPage))
            case Saved(stored) => Response(Ok, Ref(stored))
  }

  /** A parent ID of zero or below -1 gives 412, whatever the other parameters are. */
  lemma ParentIdRule<U>(
    req: CreateRequest,
    findByUserName: Nullable<string> -> seq<U>,
    save: WikiPage<U> -> SaveResult<U>)
    requires req.parentID.Parsed?
    requires req.parentID.value == 0 || req.parentID.value < -1
    ensures CreateWikiPage(req, findByUserName, save) == Response(PreconditionFailed, Ref(BlankPage))
  {
  }

  /** When every other parameter is acceptable, a parent ID passes the checks exactly when
      it is positive or -1. */
  lemma ParentIdAccepted<U>(
    req: CreateRequest,
    findByUserName: Nullable<string> -> seq<U>,
    save: WikiPage<U> -> SaveResult<U>)
    requires req.parentID.Parsed? && req.authorID.Parsed? && req.authorID.value > 0
    requires !IsNullOrEmpty(req.title) && req.content.Ref?
    ensures CreateWikiPage(req, findByUserName, save).status != PreconditionFailed <==>
              req.parentID.value > 0 || req.parentID.value == -1
  {
  }

  /** An ID parameter that does not parse gives 412, whatever the other parameters are. */
  lemma UnparsableIdRejected<U>(
    req: CreateRequest,
    findByUserName: Nullable<string> -> seq<U>,
    save: WikiPage<U> -> SaveResult<U>)
    requires req.parentID.NumberFormatException? || req.authorID.NumberFormatException?
    ensures CreateWikiPage(req, findByUserName, save) == Response(PreconditionFailed, Ref(BlankPage))
  {
  }

  /** Title and content: a null or empty title gives 412, a null content gives 412, and an
      empty content is treated like any other content. */
  lemma TitleAndContentRules<U>(
    req: CreateRequest,
    findByUserName: Nullable<string> -> seq<U>,
    save: WikiPage<U> -> SaveResult<U>)
    ensures IsNullOrEmpty(req.title) || req.content.Null? ==>
              CreateWikiPage(req, findByUserName, save).status == PreconditionFailed
    ensures forall c: string ::
              (CreateWikiPage(req.(content := Ref("")), findByUserName, save).status == PreconditionFailed) ==
              (CreateWikiPage(req.(content := Ref(c)), findByUserName, save).status == PreconditionFailed)
  {
  }

  /** The user lookup and the save are consulted only once every parameter check has
      passed: for a rejected request the outcome is the same whatever the repositories hold. */
  lemma RejectionIgnoresRepositories<U>(
    req: CreateRequest,
    find1: Nullable<string> -> seq<U>, save1: WikiPage<U> -> SaveResult<U>,
    find2: Nullable<string> -> seq<U>, save2: WikiPage<U> -> SaveResult<U>)
    requires !WellFormed(req)
    ensures CreateWikiPage(req, find1, save1) == CreateWikiPage(req, find2, save2)
  {
  }

  /** An unknown or ambiguous user name gives 422 before anything is saved: the outcome
      does not depend on the page repository. */
  lemma UnknownAuthorIgnoresSave<U>(
    req: CreateRequest,
    findByUserName: Nullable<string> -> seq<U>,
    save1: WikiPage<U> -> SaveResult<U>, save2: WikiPage<U> -> SaveResult<U>)
    requires |findByUserName(req.username)| != 1
    ensures CreateWikiPage(req, findByUserName, save1) == CreateWikiPage(req, findByUserName, save2)
  {
  }

  /** The ID in the parent position of the page handed to `save` is the author ID exactly
      when the request's parent ID is `IS_ORIGINAL_ID`, and the parent ID otherwise. */
  lemma ParentSlot<U>(req: CreateRequest, user: U)
    requires WellFormed(req)
    ensures Draft(req, user).parentID ==
              if req.parentID.value == IS_ORIGINAL_ID then req.authorID.value else req.parentID.value
    ensures Draft(req, user).parentID > 0
  {
  }

  /** No search criterion given: the title, the author and the content are all null or empty. */
  predicate NoCriteria(req: SearchRequest) {
    IsNullOrEmpty(req.title) && IsNullOrEmpty(req.author) && IsNullOrEmpty(req.content)
  }

  /** `searchWikiPage`: 422 with no body when no criterion is given; otherwise 200 with the
      pages the query returns for the title, the content and, when the author name matches
      exactly one user, that user's ID (null when it matches none or several). */
  function SearchWikiPage<U, P>(
    req: SearchRequest,
    findByUserName: Nullable<string> -> seq<U>,
    idOf: U -> Long,
    findPages: (Nullable<string>, Nullable<Long>, Nullable<string>) -> seq<P>): (r: Response<seq<P>>)
    ensures r.status == UnprocessableEntity <==> NoCriteria(req)
    ensures r.status == UnprocessableEntity ==> r.body == Null
    ensures r.status != UnprocessableEntity ==> r.status == Ok
    ensures r.status == Ok && |findByUserName(req.author)| == 1 ==>
              r.body == Ref(findPages(req.title, Ref(idOf(findByUserName(req.author)[0])), req.content))
    ensures r.status == Ok && |findByUserName(req.author)| != 1 ==>
              r.body == Ref(findPages(req.title, Null, req.content))
  {
    if IsNullOrEmpty(req.title) && IsNullOrEmpty(req.author) && IsNullOrEmpty(req.content) then
      Response(UnprocessableEntity, Null)
    else
      var authorQuery := findByUserName(req.author);
      var userID: Nullable<Long> := if |authorQuery| == 1 then Ref(idOf(authorQuery[0])) else Null;
      Response(Ok, Ref(findPages(req.title, userID, req.content)))
  }

  /** An author name that matches no user (or several) does not narrow the search: the
      answer is the one for the same title and content with no author at all, provided the
      lookup of a null name does not single out one user either. */
  lemma UnmatchedAuthorIsIgnored<U, P>(
    req: SearchRequest,
    findByUserName: Nullable<string> -> seq<U>,
    idOf: U -> Long,
    findPages: (Nullable<string>, Nullable<Long>, Nullable<string>) -> seq<P>)
    requires !IsNullOrEmpty(req.title) || !IsNullOrEmpty(req.content)
    requires |findByUserName(req.author)| != 1 && |findByUserName(Null)| != 1
    ensures SearchWikiPage(req, findByUserName, idOf, findPages) ==
              SearchWikiPage(req.(author := Null), findByUserName, idOf, findPages)
  {
  }
}
