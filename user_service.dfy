/** The part of `userService.login` that runs after the user records are fetched: the
    first record matching both email and password is returned without its password. */
module UserService {
  import opened Js
  import opened FileService

  /** The record matches the credentials: `u.email_c === email && u.password_c === password`. */
  predicate Matches(u: Obj, email: string, password: string)
  {
    Get(u, "email_c") == Str(email) && Get(u, "password_c") == Str(password)
  }

  /** `users.findIndex(...)`: the position of the first matching record, if any. */
  function FirstMatch(users: seq<Obj>, email: string, password: string): (r: Option<nat>)
    ensures r.None? <==> forall i :: 0 <= i < |users| ==> !Matches(users[i], email, password)
    ensures r.Some? ==> r.value < |users| && Matches(users[r.value], email, password)
    ensures r.Some? ==> forall j :: 0 <= j < r.value ==> !Matches(users[j], email, password)
  {
    if users == [] then None
    else if Matches(users[0], email, password) then Some(0)
    else match FirstMatch(users[1..], email, password)
      case None => None
      case Some(k) => Some(k + 1)
  }

  /** `login(email, password)` given the reply of the user query: an unsuccessful reply
      fails with "Login failed"; no matching record fails with "Invalid email or
      password"; otherwise the result is the first record matching both email and
      password, with every field kept except `password_c`. */
  function Login(reply: SdkReply<FetchResponse>, email: string, password: string): (r: Result<Obj>)
    ensures reply.Threw? ==> r == Err(reply.message)
    ensures reply.Answered? && !reply.response.success ==> r == Err("Login failed")
    ensures reply.Answered? && reply.response.success && reply.response.data.None? ==>
      r == Err("Invalid email or password")
    ensures reply.Answered? && reply.response.success && reply.response.data.Some? ==>
      var users := reply.response.data.value;
      && ((forall i :: 0 <= i < |users| ==> !Matches(users[i], email, password)) <==>
            r == Err("Invalid email or password"))
      && (forall i :: (0 <= i < |users| && Matches(users[i], email, password)
            && (forall j :: 0 <= j < i ==> !Matches(users[j], email, password))) ==>
            && r.Ok?
            && "password_c" !in r.value
            && r.value.Keys == users[i].Keys - {"password_c"}
            && forall k :: k in r.value ==> r.value[k] == users[i][k])
  {
    match reply
    case Threw(m) => Err(m)
    case Answered(resp) =>
      if !resp.success then Err("Login failed")
      else
        var users := if resp.data.Some? then resp.data.value else [];
        match FirstMatch(users, email, password)
        case None => Err("Invalid email or password")
        case Some(i) => Ok(users[i] - {"password_c"})
  }
}
