/** bot/_settings.py: the uncached `get_user_parameters`, which bot/__init__.py,
    bot/_vocabularies.py and bot/_commands.py import. As written it never returns. */
module Settings {
  import opened Wrappers
  import opened Tables

  /** What `Users.get({"user_id": user}, include_column_names=True)` returns: the one
      matching row as a namedtuple, or `[]` when there is none. */
  datatype Fetched = RowTuple(row: UserRow) | EmptyList

  function FetchUser(users: map<int, UserRow>, user: int): (f: Fetched)
    ensures f.RowTuple? <==> user in users
    ensures f.RowTuple? ==> f.row == users[user]
  {
    if user in users then RowTuple(users[user]) else EmptyList
  }

  /** `del f[key]` with a string key: a namedtuple does not support item deletion, and a
      list's indices must be integers. */
  function DeleteItem(f: Fetched, key: string): Result<Fetched>
  {
    match f
    case RowTuple(_) => Failure(TypeError)
    case EmptyList => Failure(TypeError)
  }

  /** `get_user_parameters(user)`: fetch, drop the `user_id` field, return the rest. The
      `del` raises TypeError for a user with a row and for one without. */
  function GetUserParameters(users: map<int, UserRow>, user: int): (r: Result<Fetched>)
    ensures r == Failure(TypeError)
  {
    var parameters := FetchUser(users, user);
    match DeleteItem(parameters, "user_id")
    case Failure(e) => Failure(e)
    case Success(_) => Success(parameters)
  }
}
