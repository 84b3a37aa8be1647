/** Who is acting, and when. The services read the acting user's id from the
    security context (`auth.getName()`), look the user up, and stamp records
    with the user's name and the current time; here that ambient state is an
    explicit `Context` value. */
module Audit {
  import opened Common
  import opened Numbers
  import opened Calendar

  datatype User = User(userId: int, firstName: Option<string>, lastName: Option<string>)

  /** The authenticated name (the user id as text), the user table the
      look-up consults, and the clock reading of the call. */
  datatype Context = Context(authName: Option<string>, users: map<int, User>, now: DateTime)

  /** How a possibly-null string prints inside a Java string concatenation. */
  function Show(s: Option<string>): (r: string)
    ensures s.Some? ==> r == s.value
    ensures s.None? ==> r == "null"
  {
    match s
    case Some(v) => v
    case None => "null"
  }

  /** Long.parseLong(auth.getName()); parsing a null name fails as well. */
  function ActorId(ctx: Context): Option<int> {
    if ctx.authName.None? then None else ParseLong(ctx.authName.value)
  }

  /** userService.getUserById(Long.parseLong(auth.getName())), with a missing
      user coming back as null (None). */
  function LookUpUser(ctx: Context): Result<Option<User>> {
    match ActorId(ctx)
    case None => Err(NumberFormat(Show(ctx.authName)))
    case Some(id) => Ok(if id in ctx.users then Some(ctx.users[id]) else None)
  }

  /** user.getFirstName().concat(" " + user.getLastName()). */
  function ConcatName(u: User): (r: Result<string>)
  {
    if u.firstName.None? then Err(NullPointer) else Ok(u.firstName.value + " " + Show(u.lastName))
  }

  /** The `addedBy` text the stock, brand, purchase-order, inventory and item
      services stamp: resolving the actor and then concatenating the names. */
  function StampName(ctx: Context): (r: Result<string>)
    ensures r.Ok? <==> (ActorId(ctx).Some? && ActorId(ctx).value in ctx.users
                        && ctx.users[ActorId(ctx).value].firstName.Some?)
    ensures r.Ok? ==> var u := ctx.users[ActorId(ctx).value];
                      r.value == u.firstName.value + " " + Show(u.lastName)
    ensures ActorId(ctx).None? ==> r == Err(NumberFormat(Show(ctx.authName)))
    ensures ActorId(ctx).Some? && ActorId(ctx).value !in ctx.users ==> r == Err(NullPointer)
  {
    match LookUpUser(ctx)
    case Err(e) => Err(e)
    case Ok(None) => Err(NullPointer)
    case Ok(Some(u)) => ConcatName(u)
  }

  /** TransactionEntryService.getCurrentUser: every failure is reported as an
      IllegalArgumentException naming the cause. */
  function CurrentUser(ctx: Context): (r: Result<User>)
    ensures r.Ok? <==> ActorId(ctx).Some? && ActorId(ctx).value in ctx.users
    ensures r.Ok? ==> r.value == ctx.users[ActorId(ctx).value]
    ensures r.Err? ==> r.error.IllegalArgument?
    ensures ctx.authName.None? ==> r == Err(IllegalArgument("No authenticated user found"))
    ensures ctx.authName.Some? && ActorId(ctx).None?
            ==> r == Err(IllegalArgument("Invalid user ID format: " + ctx.authName.value))
  {
    if ctx.authName.None? then Err(IllegalArgument("No authenticated user found"))
    else
      var name := ctx.authName.value;
      match ParseLong(name)
      case None => Err(IllegalArgument("Invalid user ID format: " + name))
      case Some(id) =>
        if id in ctx.users then Ok(ctx.users[id])
        else Err(IllegalArgument("User not found with ID: " + name))
  }

  /** TransactionEntryService.setAuditFields: firstName + " " + lastName, where
      a null part prints as "null". */
  function PlusName(u: User): (r: string)
    ensures u.firstName.Some? ==> ConcatName(u) == Ok(r)
  {
    Show(u.firstName) + " " + Show(u.lastName)
  }

  /** Both ways of resolving the actor find the same user: getCurrentUser
      succeeds exactly when the services' look-up finds a user. */
  lemma ActorResolutionAgrees(ctx: Context)
    ensures CurrentUser(ctx).Ok? <==> LookUpUser(ctx).Ok? && LookUpUser(ctx).value.Some?
    ensures CurrentUser(ctx).Ok? ==> LookUpUser(ctx) == Ok(Some(CurrentUser(ctx).value))
  {
  }
}
