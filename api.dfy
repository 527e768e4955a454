/**
 * The platform's REST API, as the input the model runs against.
 *
 * Every answer the script could receive is fixed in advance: a user id or
 * item id missing from its map stands for a request that raises (a network
 * error, an error status, a body without the expected fields).
 */
module Api {

  type UserId = string
  type ItemId = string

  /** `GET /items/{id}` and the pages of `GET /items/{id}/stockers`. */
  datatype ItemData = ItemData(
    createdAt: string,
    updatedAt: string,
    likes: nat,
    comments: nat,
    stockerPages: seq<seq<UserId>>)

  /** `GET /users/{id}` and the pages of `GET /users/{id}/items`. */
  datatype UserData = UserData(
    followees: nat,
    followers: nat,
    itemPages: seq<seq<ItemId>>)

  datatype Server = Server(users: map<UserId, UserData>, items: map<ItemId, ItemData>)
}
