/** The chat panel's `handleSendMessage` as a pure transition. The network
    call is not modelled; its result arrives as an `Outcome` parameter. A send
    has a synchronous first half (`BeginSend`: append the user's message,
    clear the input, raise the loading flag, build the request body) and a
    second half once the request settles (`FinishSend`: append the reply and
    lower the flag). */
module Chat {
  import opened Wrappers
  import opened Workflow
  import opened JsString

  datatype Role = User | Bot

  datatype Message = Message(role: Role, text: string)

  datatype ChatState = ChatState(history: seq<Message>, query: string, isLoading: bool)

  /** How the POST to the workflow endpoint settled: with the response's
      `answer`, or with an error whose response body may carry a `detail`. */
  datatype Outcome = Answered(answer: string) | Failed(detail: Option<string>)

  /** A node as it is sent: id, type and data only, no position. */
  datatype PayloadNode = PayloadNode(id: string, nodeType: string, data: map<string, Value>)

  datatype Payload = Payload(nodes: seq<PayloadNode>, edges: seq<Edge>, query: string)

  /** The request in flight: the state the first half left behind and the body sent. */
  datatype Pending = Pending(state: ChatState, payload: Payload)

  const DefaultError: string := "An unexpected error occurred."
  const ErrorPrefix: string := "Error: "

  const InitialChat: ChatState := ChatState([], "", false)

  /** `error.response?.data?.detail || 'An unexpected error occurred.'`: a
      missing or empty detail falls back to the default text. */
  function ErrorDetail(detail: Option<string>): (d: string)
    ensures detail.Some? && detail.value != "" ==> d == detail.value
    ensures detail.None? || detail.value == "" ==> d == DefaultError
    ensures d != ""
  {
    match detail
    case Some(v) => if v != "" then v else DefaultError
    case None => DefaultError
  }

  /** The bot's transcript entry for a settled request. */
  function Reply(outcome: Outcome): (m: Message)
    ensures m.role == Bot
    ensures outcome.Answered? ==> m.text == outcome.answer
    ensures outcome.Failed? ==> m.text == ErrorPrefix + ErrorDetail(outcome.detail)
  {
    match outcome
    case Answered(answer) => Message(Bot, answer)
    case Failed(detail) => Message(Bot, ErrorPrefix + ErrorDetail(detail))
  }

  /** The request body: each node reduced to id, type and data, in order, the
      edges as they are, and the query as typed. */
  function ToPayload(nodes: seq<Node>, edges: seq<Edge>, query: string): (p: Payload)
    ensures |p.nodes| == |nodes|
    ensures forall i | 0 <= i < |nodes| ::
              p.nodes[i].id == nodes[i].id && p.nodes[i].nodeType == nodes[i].nodeType && p.nodes[i].data == nodes[i].data
    ensures p.edges == edges && p.query == query
  {
    Payload(seq(|nodes|, i requires 0 <= i < |nodes| => PayloadNode(nodes[i].id, nodes[i].nodeType, nodes[i].data)), edges, query)
  }

  /** Moving nodes on the canvas does not change what is sent. */
  lemma PayloadIgnoresPositions(nodes: seq<Node>, moved: seq<Node>, edges: seq<Edge>, query: string)
    requires |moved| == |nodes|
    requires forall i | 0 <= i < |nodes| :: moved[i] == nodes[i].(position := moved[i].position)
    ensures ToPayload(moved, edges, query) == ToPayload(nodes, edges, query)
  {
    var p, q := ToPayload(moved, edges, query), ToPayload(nodes, edges, query);
    assert forall i | 0 <= i < |nodes| :: p.nodes[i] == q.nodes[i];
  }

  /** The synchronous half of `handleSendMessage`. None: the query is blank
      and nothing happens. */
  function BeginSend(s: ChatState, nodes: seq<Node>, edges: seq<Edge>): (r: Option<Pending>)
    ensures r.None? <==> IsBlank(s.query)
    ensures r.Some? ==>
              && r.value.state.history == s.history + [Message(User, s.query)]
              && r.value.state.query == ""
              && r.value.state.isLoading
              && r.value.payload == ToPayload(nodes, edges, s.query)
  {
    TrimEmptyIffBlank(s.query);
    if Trim(s.query) == "" then None
    else
      var newHistory := s.history + [Message(User, s.query)];
      Some(Pending(ChatState(newHistory, "", true), ToPayload(nodes, edges, s.query)))
  }

  /** The half that runs once the request settles. The reply is appended to
      the history captured in the first half, and `finally` lowers the flag. */
  function FinishSend(p: Pending, outcome: Outcome): (s: ChatState)
    ensures |s.history| == |p.state.history| + 1
    ensures s.history[..|p.state.history|] == p.state.history
    ensures s.history[|p.state.history|].role == Bot
    ensures outcome.Answered? ==> s.history[|p.state.history|].text == outcome.answer
    ensures outcome.Failed? ==> s.history[|p.state.history|].text == ErrorPrefix + ErrorDetail(outcome.detail)
    ensures s.query == p.state.query
    ensures !s.isLoading
  {
    ChatState(p.state.history + [Reply(outcome)], p.state.query, false)
  }

  /** The whole handler, given how the request settles. */
  function HandleSendMessage(s: ChatState, nodes: seq<Node>, edges: seq<Edge>, outcome: Outcome): (r: ChatState)
    ensures IsBlank(s.query) ==> r == s
    ensures !IsBlank(s.query) ==>
              && |r.history| == |s.history| + 2
              && r.history[..|s.history|] == s.history
              && r.history[|s.history|] == Message(User, s.query)
              && r.history[|s.history| + 1].role == Bot
              && (outcome.Answered? ==> r.history[|s.history| + 1].text == outcome.answer)
              && (outcome.Failed? ==> r.history[|s.history| + 1].text == ErrorPrefix + ErrorDetail(outcome.detail))
              && r.query == ""
              && !r.isLoading
  {
    match BeginSend(s, nodes, edges)
    case None => s
    case Some(p) => FinishSend(p, outcome)
  }

  /** A transcript as the panel builds it: user and bot entries alternate,
      starting with the user, every user entry is a non-blank query, and
      nothing is awaiting a reply. */
  ghost predicate WellFormed(h: seq<Message>) {
    && |h| % 2 == 0
    && forall i | 0 <= i < |h| :: (h[i].role == User <==> i % 2 == 0) && (h[i].role == User ==> !IsBlank(h[i].text))
  }

  lemma InitialWellFormed()
    ensures WellFormed(InitialChat.history)
  {
  }

  /** One exchange, a non-blank question and a bot reply, extends a well
      formed transcript to a well formed one. */
  lemma ExchangeWellFormed(h: seq<Message>, query: string, reply: Message)
    requires WellFormed(h) && !IsBlank(query) && reply.role == Bot
    ensures WellFormed(h + [Message(User, query), reply])
  {
    var h' := h + [Message(User, query), reply];
    forall i | 0 <= i < |h'|
      ensures (h'[i].role == User <==> i % 2 == 0)
      ensures h'[i].role == User ==> !IsBlank(h'[i].text)
    {
      if i < |h| {
        assert h'[i] == h[i];
      }
    }
  }

  /** Every send, whatever the outcome, keeps the transcript well formed. */
  lemma HandleSendMessageWellFormed(s: ChatState, nodes: seq<Node>, edges: seq<Edge>, outcome: Outcome)
    requires WellFormed(s.history)
    ensures WellFormed(HandleSendMessage(s, nodes, edges, outcome).history)
  {
    if !IsBlank(s.query) {
      ExchangeWellFormed(s.history, s.query, Reply(outcome));
      assert HandleSendMessage(s, nodes, edges, outcome).history
          == s.history + [Message(User, s.query), Reply(outcome)];
    }
  }

  /** A failed request whose response carries `detail: "x"` ends the
      transcript with "Error: x". */
  lemma FailureExample(s: ChatState, nodes: seq<Node>, edges: seq<Edge>)
    requires !IsBlank(s.query)
    ensures var r := HandleSendMessage(s, nodes, edges, Failed(Some("x")));
            r.history[|r.history| - 1] == Message(Bot, "Error: x")
  {
  }
}
