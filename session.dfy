/** The per-user session state (app.py, lines 100-133 and 288-329): the uploaded table,
    its cleaned copy, and the chat history with its display window. */
module SessionState {
  import opened Seqs
  import opened Records
  import opened Loader

  /** How many of the newest chat turns are shown. */
  const DisplayedTurns: nat := 8
  /** How many characters of the question's context a turn keeps. */
  const SnippetLength: nat := 600

  /** One question and its answer, with the context snippet the answer was based on. */
  datatype ChatTurn = ChatTurn(user: string, ai: string, data: string)

  /** What an upload reports: the file could not be read, required columns are missing
      (listed in required order), or the cleaned table was stored with this many rows. */
  datatype UploadOutcome = ParseFailed | MissingRequired(missing: seq<string>) | Loaded(rowCount: nat)

  /** The first 600 characters of the context, then an ellipsis. */
  function ContextSnippet(context: string): (s: string)
    ensures |s| == Min(SnippetLength, |context|) + 3
    ensures s[..|s| - 3] <= context
    ensures s[|s| - 3..] == "..."
  {
    Prefix(context, SnippetLength) + "..."
  }

  /** Appending a turn shows it last, after the newest turns already shown but one. */
  lemma {:induction false} DisplayAfterAppend(history: seq<ChatTurn>, turn: ChatTurn)
    ensures LastN(history + [turn], DisplayedTurns) == LastN(history, DisplayedTurns - 1) + [turn]
  {
    var h := history + [turn];
    var shown := LastN(h, DisplayedTurns);
    var kept := LastN(history, DisplayedTurns - 1);
    assert |shown| == |kept| + 1;
    forall i | 0 <= i < |shown| ensures shown[i] == (kept + [turn])[i] {
      if i < |kept| {
        assert shown[i] == h[|h| - |shown| + i];
      }
    }
  }

  class Session {
    /** `st.session_state.df`: the frame last read from a file. */
    var df: Frame?
    /** `st.session_state.df_clean`: the last table that passed validation, cleaned. */
    var dfClean: Option<CleanTable>
    /** `st.session_state.chat_history`; `None` until the chat section first runs. */
    var chatHistory: Option<seq<ChatTurn>>

    constructor ()
      ensures df == null && dfClean == None && chatHistory == None
    {
      df := null;
      dfClean := None;
      chatHistory := None;
    }

    /** Handles an uploaded file; `parsed` is null when the file could not be read. The
        frame is stored before validation, and the cleaning updates that same frame, so
        `df` ends up filled, clipped and with Quantity, while `df_clean` gets the rows
        that survive `dropna`. A failed validation keeps the previous `df_clean`. */
    method Upload(parsed: Frame?) returns (outcome: UploadOutcome)
      modifies this, parsed
      ensures chatHistory == old(chatHistory)
      ensures parsed == null ==> outcome == ParseFailed && df == old(df) && dfClean == old(dfClean)
      ensures parsed != null ==> df == parsed
      ensures parsed != null && MissingColumns(old(parsed.columns)) != [] ==>
        && outcome == MissingRequired(MissingColumns(old(parsed.columns)))
        && dfClean == old(dfClean)
        && parsed.Table() == old(parsed.Table())
      ensures parsed != null && MissingColumns(old(parsed.columns)) == [] ==>
        && parsed.Table() == Prepare(old(parsed.Table()))
        && dfClean == Some(Normalize(old(parsed.Table())))
        && outcome == Loaded(|dfClean.value.rows|)
    {
      if parsed == null {
        return ParseFailed;
      }
      df := parsed;
      var missing := MissingColumns(parsed.columns);
      if missing != [] {
        return MissingRequired(missing);
      }
      parsed.FillProfitNulls();
      parsed.ClipSales();
      if QuantityColumn !in parsed.columns {
        parsed.AssignDerivedQuantity();
      }
      var clean := parsed.DropNulls();
      dfClean := Some(clean);
      outcome := Loaded(|clean.rows|);
    }

    /** Lines 291-292: the history starts empty when the session has none yet. */
    method EnsureChatHistory()
      modifies this
      ensures chatHistory == if old(chatHistory).None? then Some([]) else old(chatHistory)
      ensures df == old(df) && dfClean == old(dfClean)
    {
      if chatHistory.None? {
        chatHistory := Some([]);
      }
    }

    /** A press of Send with `query`; `reply` is the text service's answer, or `None`
        when the call failed. A non-empty query that is answered appends exactly one
        turn; an empty query or a failed call leaves the history as it was. */
    method Ask(query: string, context: string, reply: Option<string>) returns (answered: bool)
      requires chatHistory.Some?
      modifies this
      ensures answered <==> query != "" && reply.Some?
      ensures answered ==>
        chatHistory == Some(old(chatHistory.value) + [ChatTurn(query, reply.value, ContextSnippet(context))])
      ensures !answered ==> chatHistory == old(chatHistory)
      ensures df == old(df) && dfClean == old(dfClean)
    {
      answered := false;
      if query != "" {
        if reply.Some? {
          chatHistory := Some(chatHistory.value + [ChatTurn(query, reply.value, ContextSnippet(context))]);
          answered := true;
        }
      }
    }

    /** Line 329: the last eight turns, oldest first, or all of them when there are
        fewer. */
    function DisplayedHistory(): (shown: seq<ChatTurn>)
      reads this
      requires chatHistory.Some?
      ensures |shown| == Min(DisplayedTurns, |chatHistory.value|)
      ensures forall i :: 0 <= i < |shown| ==>
        shown[i] == chatHistory.value[|chatHistory.value| - |shown| + i]
    {
      LastN(chatHistory.value, DisplayedTurns)
    }
  }
}
