/** The callback over the socket, from the line the peer sends to what becomes of the call
    (maurice/host/server.py:245-262, maurice/kernel/loop.py:452-490). */
module SocketApproval {
  import opened Wrappers
  import opened Approvals
  import Framing
  import G = ToolGate

  /** The callback's return value as the loop sees it. */
  function Returned(a: Framing.Answer): G.Answer {
    match a
    case No => G.AnswerBool(false)
    case Given(approved, scope) => G.AnswerDict(approved, Some(scope))
  }

  function CallbackReturns(c: Framing.Conn, decode: Framing.Bytes -> Framing.Reply): G.Answer {
    var line := Framing.Recv(c).0;
    Returned(if line.Some? then Framing.AnswerOf(decode(line.value)) else Framing.No)
  }

  /** A waiting call goes through exactly when the peer's next line approves it; a refusing line and a closed
      connection refuse it and leave nothing behind. */
  lemma NextLineDecides(loop: G.Loop, call: G.Call, caller: G.Caller, store: seq<Approval>, c: Framing.Conn,
                        decode: Framing.Bytes -> Framing.Reply, at: real)
    requires call.name in loop.tools && Framing.Open(c)
    ensures var s := Framing.Unread(c);
            var r := G.FinishCall(loop, call, caller, store, CallbackReturns(c, decode), at);
            if Framing.NEWLINE in s && decode(s[..Framing.FirstNewline(s)]).approved then
              r.outcome in {G.Executed, G.ExecutorMissing}
            else r.outcome.ApprovalDenied? && r.store == store && r.acts == []
  {
    Framing.RecvIgnoresChunking(c);
    var answer := CallbackReturns(c, decode);
    if G.SaysYes(answer) {
      G.YesIsYes(loop, call, caller, store, answer, at);
    } else {
      G.NoIsNo(loop, call, caller, store, answer, at);
    }
  }

  /** Whether that yes is for the session: the peer's `remember_scope` says so, or its `scope` when there is
      no `remember_scope`. */
  lemma SessionWordDecides(loop: G.Loop, call: G.Call, caller: G.Caller, store: seq<Approval>, c: Framing.Conn,
                           decode: Framing.Bytes -> Framing.Reply, at: real)
    requires call.name in loop.tools && Framing.Open(c) && Framing.NEWLINE in Framing.Unread(c)
    ensures var s := Framing.Unread(c);
            var reply := decode(s[..Framing.FirstNewline(s)]);
            var r := G.FinishCall(loop, call, caller, store, CallbackReturns(c, decode), at);
            var word := if reply.rememberScope != "" then reply.rememberScope else reply.scope;
            reply.approved ==> |r.acts| == 1 && r.acts[0].CallbackYes? && (r.acts[0].forSession <==> word == "session")
  {
    Framing.RecvIgnoresChunking(c);
    var answer := CallbackReturns(c, decode);
    if G.SaysYes(answer) {
      G.YesIsYes(loop, call, caller, store, answer, at);
    }
  }
}
