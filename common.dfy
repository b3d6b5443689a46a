/** Values shared by the route modules: optional values, request-body fields
    and the replies a route handler produces. */
module Common {

  datatype Option<+T> = None | Some(value: T)

  /** A field of a request body. An absent field reaches SQLite as NULL. */
  type Field = Option<string>

  /** The position of the first element satisfying `p`: what `db.get` returns
      for a query whose WHERE clause is `p`, scanning a table in rowid order. */
  function First<T>(s: seq<T>, p: T -> bool): (r: Option<nat>)
    ensures r.Some? ==> r.value < |s| && p(s[r.value])
    ensures r.Some? ==> forall j :: 0 <= j < r.value ==> !p(s[j])
    ensures r.None? ==> forall j :: 0 <= j < |s| ==> !p(s[j])
  {
    if s == [] then None
    else if p(s[0]) then Some(0)
    else match First(s[1..], p)
      case None => None
      case Some(k) => Some(k + 1)
  }

  /** The lookup of a row just appended, whose key no earlier row has,
      finds that row. */
  lemma FirstIsLast<T>(s: seq<T>, p: T -> bool)
    requires s != [] && p(s[|s| - 1])
    requires forall j :: 0 <= j < |s| - 1 ==> !p(s[j])
    ensures First(s, p) == Some(|s| - 1)
  {
  }

  /** What a route handler does with its response object.
      `Ok` and `Err` are `res.status(s).json(...)`; `NoResponse` is a handler
      that throws (or whose promise rejects) inside a database callback, so that
      no reply is ever sent. */
  datatype Response<+T> =
    | Ok(status: nat, body: T)
    | Err(status: nat, error: string)
    | NoResponse(reason: string)
}
