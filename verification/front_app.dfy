/** The earlier single-file client (frontend/front.jsx): after a reply it
    shows the rows, builds the descriptors the same way the dashboard
    does, and hands the server's `suggestedVegaLite` to the chart
    component. It has no prompt guard and no `catch`: a reply without
    `data` throws at `data[0]` and leaves the state as it was. */
module FrontApp {

  import opened Wrappers
  import opened Json
  import opened FieldInference
  import SqlCompiler
  import NlqServer
  import DemoServer

  datatype FrontState = FrontState(rows: seq<Json>, fields: seq<FieldDescriptor>, autoSpec: Option<Json>)

  const InitialFront: FrontState := FrontState([], [], None)

  /** `ask()` once `{ data, suggestedVegaLite }` is destructured; None is
      an absent property. */
  function Ask(st: FrontState, data: Option<seq<Json>>, suggestedVegaLite: Option<Json>): (r: FrontState)
    ensures data.None? ==> r == st
    ensures data.Some? ==> r.rows == data.value && r.fields == BuildFields(data.value)
    ensures data.Some? ==> (r.autoSpec.Some? <==> OptTruthy(suggestedVegaLite))
    ensures r.autoSpec.Some? && data.Some? ==> r.autoSpec == suggestedVegaLite
  {
    if data.None? then st
    else
      FrontState(data.value, BuildFields(data.value),
                 if OptTruthy(suggestedVegaLite) then suggestedVegaLite else None)
  }

  /** The query server's reply as this client reads it: a rejection has
      neither property. */
  function NlqReplyParts(r: NlqServer.Response): (p: (Option<seq<Json>>, Option<Json>))
    ensures r.BadRequest? ==> p == (None, None)
    ensures r.Reply? ==> p == (Some(r.data), Some(r.suggestedVegaLite))
  {
    match r
    case BadRequest(_) => (None, None)
    case Reply(data, vega, _) => (Some(data), Some(vega))
  }

  /** Against the query server, the chart spec is the specification's own
      `suggestedVegaLite` object when it carries one, and none otherwise;
      a rejection changes nothing. */
  lemma QueryServerSpecReachesChart(d: SqlCompiler.Dialect, st: FrontState, v: Json, rows: seq<Json>)
    ensures var reply := NlqServer.HandleNlq(d, Some(v), rows);
            var p := NlqReplyParts(reply);
            var r := Ask(st, p.0, p.1);
            var g := if v.JObj? then Get(v.entries, "suggestedVegaLite") else None;
            && (!NlqServer.Accepts(v) ==> r == st)
            && (NlqServer.Accepts(v) && g.Some? && g.value.JObj? ==> r.autoSpec == g)
            && (NlqServer.Accepts(v) && (g.None? || g.value.JNull?) ==> r.autoSpec.None?)
  {
    var reply := NlqServer.HandleNlq(d, Some(v), rows);
    if NlqServer.Accepts(v) {
      NlqServer.VegaPassedThrough(d, v, rows);
      assert reply.Reply?;
    }
  }

  /** Against the demo server, the chart spec is the default bar chart
      unless the model's specification was adopted. */
  lemma DemoServerSpecReachesChart(st: FrontState, o: DemoServer.AdapterOutcome, processed: seq<Json>)
    ensures var reply := DemoServer.HandleDemo(o, processed);
            var r := Ask(st, Some(reply.data), reply.suggestedVegaLite);
            && r.rows == processed
            && (!DemoServer.Adoptable(o) ==> r.autoSpec == Some(DemoServer.DefaultVega))
            && (DemoServer.Adoptable(o) ==>
                  r.autoSpec == (if OptTruthy(Get(o.parsed.value.entries, "suggestedVegaLite"))
                                 then Get(o.parsed.value.entries, "suggestedVegaLite") else None))
  {
  }
}
