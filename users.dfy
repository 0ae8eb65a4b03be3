/** The users service of the backend: listings that select every user field except the password. */
module Users {
  import opened Outcomes
  import opened Seqs
  import opened Entities

  function Summary(u: User): UserSummary {
    UserSummary(u.id, u.email, u.username, u.createdAt)
  }

  /** `findAll`: one record per stored user, in store order, with id, email, username and createdAt. */
  function FindAll(rows: seq<User>): (r: seq<UserSummary>)
    ensures |r| == |rows|
    ensures forall i :: 0 <= i < |rows| ==>
      r[i].id == rows[i].id && r[i].email == rows[i].email &&
      r[i].username == rows[i].username && r[i].createdAt == rows[i].createdAt
  {
    if rows == [] then [] else [Summary(rows[0])] + FindAll(rows[1..])
  }

  /** `findOne`: null exactly when no user has the id; otherwise that user's selected fields. */
  function FindOne(rows: seq<User>, id: string): (r: Option<UserSummary>)
    ensures r.None? <==> forall u :: u in rows ==> u.id != id
    ensures r.Some? ==>
      exists u :: u in rows && u.id == id && r.value == UserSummary(u.id, u.email, u.username, u.createdAt)
  {
    match Find(rows, (u: User) => u.id == id)
    case None => None
    case Some(user) => Some(Summary(user))
  }
}
