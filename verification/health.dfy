/** GET /healthcheck: the liveness probe. */
module Health {
  import opened Http

  function Healthcheck(): (r: Response)
    ensures r.status == 200
    ensures r.body.Json? && r.body.fields == map["status" := "ok"]
  {
    Response(200, map[], Json(map["status" := "ok"]))
  }
}
