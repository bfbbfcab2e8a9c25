/** What a route of the Express server answers: an HTTP status with a JSON
    body, and for the routes that write, the database afterwards. */
module ServerHttp {
  import opened Wrappers
  import opened ServerAuth
  import opened ServerDb

  /** A user as the routes return it: every column but the password hash. */
  datatype UserView = UserView(id: int, name: string, email: string, address: Option<string>, role: string)

  datatype AdminStoreView = AdminStoreView(id: int, name: string, email: string, address: string, rating: real)

  datatype Rater = Rater(userId: int, name: string, email: string, value: int, createdAt: int)

  datatype PublicStoreView = PublicStoreView(id: int, name: string, address: string, overallRating: real,
                                             myRating: Option<int>)

  datatype Body =
    | Error(error: string)
    | Message(message: string)
    | UserCreated(message: string, user: UserView)
    | LoggedIn(token: string, role: string)
    | Counts(usersCount: nat, storesCount: nat, ratingsCount: nat)
    | StoresForAdmin(adminStores: seq<AdminStoreView>)
    | UsersForAdmin(users: seq<UserView>)
    | UserDetail(user: UserView, ownerStoreRating: Option<real>)
    | OwnerStore(storeId: int, average: real, raters: seq<Rater>)
    | StoresForUser(publicStores: seq<PublicStoreView>)
    | Saved(message: string, rating: RatingRow)

  datatype Response = Response(status: int, body: Body)

  /** The answer of a route that may write, with the database it leaves. */
  datatype Reply = Reply(response: Response, db: Db)

  /** The JSON error answer for a refusal of the gate. */
  function Refusal(r: Rejection): Response
  {
    Response(r.status, Error(r.error))
  }

  /** The catch-all answer of every handler's `catch` block. */
  const ServerError := Response(500, Error("Something went wrong"))

  function ViewOf(u: UserRow): UserView
  {
    UserView(u.id, u.name, u.email, u.address, u.role)
  }
}
