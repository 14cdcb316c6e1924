/** app.go: the three callbacks over the registry, the rule engine and the hub, each run alone.  Their
    interleavings are the subject of OnRequest and LiveFlow. */
module App {
  import opened Prelude
  import Registry
  import Rules
  import RuleEngine
  import Rewrite
  import Decisions = OnRequest
  import WsCodec
  import WsIo

  datatype Action = Terminate | Passthrough

  class Application<J> {
    const reg: Registry.Registry
    const rules: RuleEngine.Engine
    const hub: WsIo.Hub?
    const scripts: Rewrite.Scripts
    const codec: Rewrite.Codec<J>
    /** The live message of a flow, or None when it cannot be marshalled. */
    const message: Registry.Flow -> Option<seq<WsCodec.byte>>

    constructor (reg: Registry.Registry, rules: RuleEngine.Engine, hub: WsIo.Hub?, scripts: Rewrite.Scripts,
                 codec: Rewrite.Codec<J>, message: Registry.Flow -> Option<seq<WsCodec.byte>>)
      ensures this.reg == reg && this.rules == rules && this.hub == hub
      ensures this.scripts == scripts && this.codec == codec && this.message == message
    {
      this.reg, this.rules, this.hub, this.scripts, this.codec, this.message :=
        reg, rules, hub, scripts, codec, message;
    }

    /** The connection is counted and judged by the state from before: observing decides nothing. */
    method OnConnect(host: string) returns (action: Action)
      modifies reg
      ensures reg.Value() == Registry.Apply(old(reg.Value()), Registry.Event.Observe(host))
      ensures action == Terminate <==> Registry.StateOf(old(reg.Value()), host) in {"INTERCEPTED", "MOCKED"}
    {
      reg.Observe(host);
      var st := reg.State(host);
      action := if st == Registry.INTERCEPTED || st == Registry.MOCKED then Terminate else Passthrough;
    }

    /** Without concurrent edits, the request meets the decision of the single-lookup specification: it
        is forwarded untouched, or rewritten in place and forwarded, or answered. */
    method OnRequest(host: string, req: Rewrite.Request) returns (answer: Option<Rewrite.Response>)
      requires rules.Valid()
      modifies req
      ensures match Decisions.Decide(Registry.StateOf(reg.Value(), host),
                    rules.Contents(), Rules.Query(host, req.look.path, req.look.httpMethod))
              case Upstream => answer == None && req.Value() == old(req.Value())
              case Rewritten(r) =>
                answer == None && req.Value() == Rewrite.Rewritten(old(req.Value()), r, req.look, scripts, codec)
              case Mock(r) => answer == Some(Rewrite.Render(r, req.look, scripts)) && req.Value() == old(req.Value())
    {
      var q := Rewrite.QueryOf(host, req.look);
      var st := reg.State(host);
      var r := rules.MatchRule(q);
      if r.Some? && Rules.IsRewrite(r.value) {
        if st == Registry.INTERCEPTED || st == Registry.MOCKED {
          Rewrite.ApplyRewrite(req, r.value, scripts, codec);
        }
        return None;
      }
      if st != Registry.MOCKED {
        return None;
      }
      answer := rules.Match(host, req.look, scripts);
    }

    /** The flow enters its ring, and every client gets its message as one whole frame. */
    method OnFlow(f: Registry.Flow)
      requires reg.ringN == Registry.RING
      modifies reg, if hub == null then {} else hub.clients
      ensures reg.Value() == Registry.Apply(old(reg.Value()), Registry.Event.AddFlow(f))
      ensures hub != null ==> hub.clients == old(hub.clients)
      ensures hub != null ==> forall c :: c in hub.clients ==>
                c.out == old(c.out) + if message(f).Some? then WsCodec.ServerFrame(1, message(f).value) else []
    {
      reg.AddFlow(f);
      if hub != null {
        var m := message(f);
        if m.Some? {
          hub.Publish(m.value);
        }
      }
    }
  }
}
