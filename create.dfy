/** The user-creation handler: it validates the bound request and answers
    through SendResponse. The model is the sequence of SendResponse calls
    the handler makes, in order. */
module UserCreate {
  import Errno

  /** The request body after binding. */
  datatype CreateRequest = CreateRequest(username: string, password: string)

  /** What binding the request body produced. */
  datatype Bind = BindFailed | Bound(request: CreateRequest)

  /** The values the handler reads from the URL and the headers; it only logs them. */
  datatype RequestMeta = RequestMeta(urlUsername: string, desc: string, contentType: string)

  /** The error argument of a SendResponse call. */
  datatype ResponseError =
    | NoError                                    // nil
    | Code(errno: Errno.Errno)                   // a table entry as it is
    | Wrapped(errno: Errno.Errno, cause: string) // errno.New(entry, cause)
    | Plain(message: string)                     // a plain error value

  /** The data argument of a SendResponse call. */
  datatype ResponseData = NoData | Created(username: string)

  datatype Response = Response(err: ResponseError, data: ResponseData)

  const UserNotFoundCause: string := "username can not found in db: xx.xx.xx.xx"
  const PasswordEmpty: string := "password is empty"

  /** A request both of whose fields are filled in. */
  predicate Complete(bind: Bind)
  {
    bind.Bound? && bind.request.username != "" && bind.request.password != ""
  }

  /** The responses the handler sends, as written: after the empty-password
      response there is no return, so the success response follows it. */
  function Create(bind: Bind, meta: RequestMeta): (sent: seq<Response>)
    ensures 1 <= |sent| <= 2
    ensures sent[|sent| - 1].err.NoError? <==> bind.Bound? && bind.request.username != ""
    ensures |sent| == 2 <==> bind.Bound? && bind.request.username != "" && bind.request.password == ""
    ensures forall i :: 0 <= i < |sent| ==> (sent[i].data.Created? <==> sent[i].err.NoError?)
  {
    match bind
    case BindFailed =>
      [Response(Code(Errno.ErrBind), NoData)]
    case Bound(r) =>
      if r.username == "" then
        [Response(Wrapped(Errno.ErrUserNotFound, UserNotFoundCause), NoData)]
      else
        var passwordCheck := if r.password == "" then [Response(Plain(PasswordEmpty), NoData)] else [];
        passwordCheck + [Response(NoError, Created(r.username))]
  }

  /** The handler with the return the empty-password branch evidently lacks. */
  function CreateWithReturn(bind: Bind, meta: RequestMeta): (sent: seq<Response>)
    ensures |sent| == 1
    ensures sent[0].err.NoError? <==> Complete(bind)
    ensures Complete(bind) ==> sent[0].data == Created(bind.request.username)
  {
    match bind
    case BindFailed =>
      [Response(Code(Errno.ErrBind), NoData)]
    case Bound(r) =>
      if r.username == "" then
        [Response(Wrapped(Errno.ErrUserNotFound, UserNotFoundCause), NoData)]
      else if r.password == "" then
        [Response(Plain(PasswordEmpty), NoData)]
      else
        [Response(NoError, Created(r.username))]
  }

  /** A bind failure is answered with ErrBind alone. */
  lemma BindFailureAnswersErrBind(meta: RequestMeta)
    ensures Create(BindFailed, meta) == [Response(Code(Errno.ErrBind), NoData)]
  {
  }

  /** An empty username is answered with a wrapped ErrUserNotFound alone, whatever the password. */
  lemma EmptyUsernameStops(password: string, meta: RequestMeta)
    ensures Create(Bound(CreateRequest("", password)), meta) ==
      [Response(Wrapped(Errno.ErrUserNotFound, UserNotFoundCause), NoData)]
  {
  }

  /** An empty password after a non-empty username sends two responses: the
      password error, then a success carrying the username. */
  lemma EmptyPasswordSendsTwice(username: string, meta: RequestMeta)
    requires username != ""
    ensures Create(Bound(CreateRequest(username, "")), meta) ==
      [Response(Plain(PasswordEmpty), NoData), Response(NoError, Created(username))]
  {
  }

  /** A complete request is answered with one success carrying its username. */
  lemma CompleteRequestSucceeds(bind: Bind, meta: RequestMeta)
    requires Complete(bind)
    ensures Create(bind, meta) == [Response(NoError, Created(bind.request.username))]
  {
  }

  /** The URL parameter, the query value and the header never change what is sent. */
  lemma MetaIsOnlyLogged(bind: Bind, meta: RequestMeta, meta': RequestMeta)
    ensures Create(bind, meta) == Create(bind, meta')
    ensures CreateWithReturn(bind, meta) == CreateWithReturn(bind, meta')
  {
  }

  /** The corrected handler sends the first response the handler as written sends. */
  lemma CorrectedKeepsFirstResponse(bind: Bind, meta: RequestMeta)
    ensures CreateWithReturn(bind, meta) == Create(bind, meta)[..1]
  {
  }
}
