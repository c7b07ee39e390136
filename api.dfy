/** The JSON shapes the two backend routers answer with. */
module Api {
  import opened Values

  /** FastAPI's HTTPException: a status code and its `detail`. */
  datatype HttpError = HttpError(status: nat, detail: string)

  datatype Result<T> = Ok(value: T) | Err(error: HttpError)

  /** `{"total": total, "data": rows}` of a paginated read. */
  datatype PageBody = PageBody(total: nat, data: seq<Json>)

  function PageJson(b: PageBody): (j: Json)
    ensures Get(j, "total") == Some(Num(b.total))
    ensures Get(j, "data") == Some(Arr(b.data))
  {
    var entries := [("total", Num(b.total)), ("data", Arr(b.data))];
    assert Lookup(entries[1..], "data") == Some(Arr(b.data));
    Obj(entries)
  }

  /** The JSON body of an HttpError. */
  function ErrorJson(e: HttpError): (j: Json)
    ensures Get(j, "detail") == Some(Str(e.detail))
    ensures !HasKey(j.entries, "data") && !HasKey(j.entries, "total")
  {
    Obj([("detail", Str(e.detail))])
  }

  /** `{"deleted": …, "message": …, "deleted_nodes": […]}` of a delete route. */
  datatype DeleteBody = DeleteBody(deleted: bool, message: string, deletedNodes: seq<int>)

  /** What `delete_nodes([id], dry_run=…)` did: raised, or returned the pks it
      deleted (or would delete) together with its success flag. */
  datatype DeleteOutcome = Raised(message: string) | Completed(nodes: seq<int>, ok: bool)
}
