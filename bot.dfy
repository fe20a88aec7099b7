/** The chat bot (src/chat/bot.py): one agent per user, kept in a cache, and one turn of
    conversation as a stream of answers. A turn forwards every streamed chunk as an
    answer, then emits one final answer carrying the quotes its tools recorded, and
    only after that stores the turn's full message history.

    The agent is opaque. Running it is the parameter `run`, which maps the agent, the
    prompt and the stored history to the streamed chunks, the quotes the tool calls
    append to the turn's dependencies, and the messages of the whole exchange. The
    history store is the field `saved`. */
module ChatBot {
  import opened Wrappers
  import opened Types

  /** An agent built for one user. */
  type Agent(==)

  /** What a run of the agent produces. */
  datatype RunResult = RunResult(chunks: seq<string>, toolQuotes: seq<Quote>, allMessages: seq<ModelMessage>)

  /** What one turn does, in order: the answers it yields and the history it stores. */
  datatype Event = Yield(answer: Answer) | Persist(userId: string, history: seq<ModelMessage>)

  /** One answer per chunk, in stream order. */
  function Streamed(chunks: seq<string>): seq<Event> {
    seq(|chunks|, i requires 0 <= i < |chunks| => Yield(Answer(TextAnswer(chunks[i]), [])))
  }

  /** The last chunk, or the empty text when there was none. */
  function LastOr(chunks: seq<string>): string {
    if |chunks| == 0 then "" else chunks[|chunks| - 1]
  }

  /** The events of one turn. */
  function TurnEvents(userId: string, r: RunResult): seq<Event> {
    Streamed(r.chunks)
      + [Yield(Answer(TextAnswer(LastOr(r.chunks)), r.toolQuotes)), Persist(userId, r.allMessages)]
  }

  /** The shape of a turn: one answer per chunk in stream order, then exactly one final
      answer whose content is the last chunk (empty without chunks) and which carries the
      turn's quotes, then the one and only store of the history, which is the run's
      complete message list. Nothing is stored before the final answer. */
  lemma TurnEventsShape(userId: string, r: RunResult)
    ensures var ev := TurnEvents(userId, r);
            var n := |r.chunks|;
            && |ev| == n + 2
            && (forall i :: 0 <= i < n ==> ev[i] == Yield(Answer(TextAnswer(r.chunks[i]), [])))
            && ev[n] == Yield(Answer(TextAnswer(if n == 0 then "" else r.chunks[n - 1]), r.toolQuotes))
            && ev[n + 1] == Persist(userId, r.allMessages)
            && (forall i :: 0 <= i < |ev| && ev[i].Persist? ==> i == n + 1)
  {
  }

  class Bot {
    const env: Environment
    var chats: map<string, Agent>
    var saved: map<string, seq<ModelMessage>>

    /** A missing agent map starts empty. */
    constructor(env: Environment, chats: Option<map<string, Agent>>, saved: map<string, seq<ModelMessage>>)
      ensures this.env == env && this.saved == saved
      ensures this.chats == if chats.Some? then chats.value else map[]
    {
      this.env := env;
      this.chats := if chats.Some? then chats.value else map[];
      this.saved := saved;
    }

    /** `get_agent`: the cached agent of the user, or `newAgent`, which is then cached
        under that user; no other entry changes. */
    method GetAgent(userId: string, newAgent: Agent) returns (agent: Agent)
      modifies this
      ensures userId in old(chats) ==> agent == old(chats)[userId] && chats == old(chats)
      ensures userId !in old(chats) ==> agent == newAgent && chats == old(chats)[userId := newAgent]
      ensures saved == old(saved)
    {
      if userId in chats {
        agent := chats[userId];
      } else {
        agent := newAgent;
        chats := chats[userId := agent];
      }
    }

    /** `get_dependencies`: the dependencies of one turn, with an empty quote list. */
    method GetDependencies() returns (deps: Dependencies)
      ensures fresh(deps)
      ensures deps.env == env && deps.quotes == []
      ensures deps.user.None? && deps.conversation.None?
    {
      deps := new Dependencies(env, [], None, None);
    }

    /** `answer`: the turn's events, and the stored history afterwards. */
    method Answer(message: string, userId: string, newAgent: Agent,
                  run: (Agent, string, Option<seq<ModelMessage>>) -> RunResult)
      returns (events: seq<Event>)
      modifies this
      ensures var agent := if userId in old(chats) then old(chats)[userId] else newAgent;
              var history := if userId in old(saved) then Some(old(saved)[userId]) else None;
              var r := run(agent, message, history);
              && events == TurnEvents(userId, r)
              && chats == old(chats)[userId := agent]
              && saved == old(saved)[userId := r.allMessages]
    {
      var agent := GetAgent(userId, newAgent);
      var history := if userId in saved then Some(saved[userId]) else None;
      var dependencies := GetDependencies();
      var chunk := TextAnswer("");
      var response := run(agent, message, history);
      events := [];
      var i := 0;
      while i < |response.chunks|
        invariant 0 <= i <= |response.chunks|
        invariant events == Streamed(response.chunks[..i])
        invariant chunk == TextAnswer(LastOr(response.chunks[..i]))
        invariant chats == old(chats)[userId := agent] && saved == old(saved)
      {
        chunk := TextAnswer(response.chunks[i]);
        events := events + [Yield(Types.Answer(chunk, []))];
        i := i + 1;
      }
      assert response.chunks[..i] == response.chunks;
      assert events == Streamed(response.chunks);
      assert chunk == TextAnswer(LastOr(response.chunks));
      // the run's tool calls have appended their quotes to this turn's dependencies
      dependencies.quotes := dependencies.quotes + response.toolQuotes;
      assert dependencies.quotes == response.toolQuotes;
      events := events + [Yield(Types.Answer(chunk, dependencies.quotes))];
      events := events + [Persist(userId, response.allMessages)];
      assert events == TurnEvents(userId, response);
      saved := saved[userId := response.allMessages];
    }
  }
}
