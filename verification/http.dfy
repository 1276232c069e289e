/**
 * The request and response shapes the middleware and the handlers exchange.
 * A request is an object the middleware writes to (`decodedToken`,
 * `decodedRefreshToken`) before it hands control on; a response is a status
 * code and a JSON body.
 */
module Http {
  import opened Wrappers
  import opened Schema
  import opened Jwt

  /** Which validator in a chain rejected a field. */
  datatype Check = Required | Length | Alphanumeric | Unique | StrongPassword | Enum | JwtShape

  /** One entry of `validationResult(req).array()`. */
  datatype FieldError = FieldError(param: string, check: Check)

  const MsgUserNotFound := "could not find user"
  const MsgWrongPassword := "you entered the wrong password"
  const MsgTokenInvalid := "token not valid"
  const MsgRoleDenied := "you can't access this page"
  const MsgRefreshInvalid := "refresh token not valid"
  const MsgNoSuchUser := "user not found"
  const MsgPageNotFound := "page not found"

  /** The `user` object of a token response: username, role and name, never the password. */
  datatype PublicUser = PublicUser(username: string, role: string, name: string)

  datatype TokenResponse = TokenResponse(success: bool, accessToken: Wire, refreshToken: Wire, user: PublicUser)

  /** A record with the password projected away (timestamps are not modelled). */
  datatype Profile = Profile(id: Id, username: string, name: string, role: string)

  function ProfileOf(u: User): Profile {
    Profile(u.id, u.username, u.name, u.role)
  }

  datatype Body =
    | TokenIssued(tokens: TokenResponse)          // createSuccessTokenRespond(user)
    | ValidationFailed(errors: seq<FieldError>)   // { success: false, message: "validation error", error }
    | Failed(message: string)                     // { success: false, message }
    | ProfileFound(user: Option<Profile>)         // { success: true, user }, user may be null
    | UserPage(data: seq<Profile>)                // { success: true, data }
    | AccountDeleted                              // { success: true, result }
    | ServerError                                 // { success: false, message: "server error" }

  datatype Response = Response(status: int, body: Body)

  /** The request body fields the handlers read; an absent field is the empty string. */
  datatype Form = Form(username: string, password: string, name: string, role: string, refresh: Wire)

  class Request {
    /** `req.headers.authorization` */
    var authorization: Wire
    /** `req.body` */
    var body: Form
    /** `req.query.page`, already a number */
    var page: int
    /** `req.decodedToken`, set by the access middleware */
    var decodedToken: Option<Claims>
    /** `req.decodedRefreshToken`, set by the refresh middleware */
    var decodedRefreshToken: Option<Claims>
    /** How many times the middleware called `next()` */
    var nextCalls: nat

    /** A request as it arrives: nothing decoded yet, `next` not called. */
    constructor (authorization: Wire, body: Form, page: int)
      ensures this.authorization == authorization && this.body == body && this.page == page
      ensures decodedToken == None && decodedRefreshToken == None && nextCalls == 0
    {
      this.authorization := authorization;
      this.body := body;
      this.page := page;
      decodedToken := None;
      decodedRefreshToken := None;
      nextCalls := 0;
    }
  }
}
