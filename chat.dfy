/** Values shared by the session logic and the transcript exporter: chat messages as
    the retrieval chain returns them, and the chain itself as an opaque handle. */
module Chat {

  datatype Option<T> = None | Some(value: T)

  /** The class of a history entry: `HumanMessage`, `AIMessage`, or any other message
      class the chain might return. */
  datatype Role = Human | AI | OtherRole

  /** One entry of `chat_history`. */
  datatype Message = Message(role: Role, content: string)

  /** An uploaded PDF file, as bytes. */
  datatype Upload = Upload(name: string, bytes: seq<bv8>)

  /** A built retrieval chain: an opaque handle on its vector store, and the messages
      its conversation memory holds. */
  datatype Chain = Chain(index: nat, memory: seq<Message>)

  /** What one `conversation.invoke({"question": q})` returns: the answer and the
      chain's whole chat history after the call. */
  datatype Reply = Reply(answer: string, history: seq<Message>)

  /** The library calls the session depends on, as uninterpreted oracles. `invoke` asks a
      chain (with its memory) a question; `build` is the whole extract/split/embed/index
      pipeline run by "Process" and yields a vector store handle. Either gives `None` when
      a library call raises. */
  datatype Backend = Backend(invoke: (Chain, string) -> Option<Reply>, build: seq<Upload> -> Option<nat>)
}
