/**
 Recognising a streamed answer when a client replays it: fragments are accumulated chunk by
 chunk, and the message they make has the key of every form the client may send back.
 */
module Capture {
  import opened Wrappers

  datatype Function = Function(name: Option<string>, arguments: Option<string>)

  datatype ToolCall = ToolCall(id: Option<string>, kind: Option<string>, does: Option<Function>)

  /** A piece of a tool call; without an index its position in the chunk counts. */
  datatype Fragment = Fragment(index: Option<int>, call: ToolCall)

  datatype Delta = Delta(content: Option<string>, toolCalls: seq<Fragment>, functionCall: Option<Function>)

  /** Content as clients send it: text or a list of parts. */
  datatype Content = Text(text: string) | Parts(parts: seq<string>)

  datatype Message = Message(content: Option<Content>, toolCalls: Option<seq<ToolCall>>, functionCall: Option<Function>)

  // Accumulating

  /** Text grows by its fragments. */
  function Append(current: Option<string>, next: Option<string>): Option<string> {
    if next.None? then current else if current.None? then next else Some(current.value + next.value)
  }

  /** The last value given wins. */
  function Latest(current: Option<string>, next: Option<string>): Option<string> {
    if next.Some? then next else current
  }

  function AppendFunction(f: Function, g: Function): Function {
    Function(Append(f.name, g.name), Append(f.arguments, g.arguments))
  }

  function JoinFunction(f: Option<Function>, g: Option<Function>): Option<Function> {
    if g.None? then f else Some(AppendFunction(if f.Some? then f.value else NO_FUNCTION, g.value))
  }

  function Join(a: ToolCall, b: ToolCall): ToolCall {
    ToolCall(Latest(a.id, b.id), Latest(a.kind, b.kind), JoinFunction(a.does, b.does))
  }

  const NO_FUNCTION := Function(None, None)
  const NO_CALL := ToolCall(None, None, None)

  lemma AppendIsAssociative(a: Option<string>, b: Option<string>, c: Option<string>)
    ensures Append(Append(a, b), c) == Append(a, Append(b, c))
  {
    if a.Some? && b.Some? && c.Some? {
      assert a.value + b.value + c.value == a.value + (b.value + c.value);
    }
  }

  lemma JoinIsAssociative(a: ToolCall, b: ToolCall, c: ToolCall)
    ensures Join(Join(a, b), c) == Join(a, Join(b, c))
    ensures Join(NO_CALL, a) == a && Join(a, NO_CALL) == a
  {
    if a.does.Some? && b.does.Some? && c.does.Some? {
      AppendIsAssociative(a.does.value.name, b.does.value.name, c.does.value.name);
      AppendIsAssociative(a.does.value.arguments, b.does.value.arguments, c.does.value.arguments);
    }
  }

  /** A fragment with its index resolved. */
  datatype Piece = Piece(index: int, call: ToolCall)

  function Resolve(f: Fragment, position: nat): Piece {
    Piece(if f.index.Some? then f.index.value else position, f.call)
  }

  function Pieces(fragments: seq<Fragment>): (pieces: seq<Piece>)
    ensures |pieces| == |fragments|
  {
    seq(|fragments|, i requires 0 <= i < |fragments| => Resolve(fragments[i], i))
  }

  /** All the pieces of a stream, in the order they came. */
  function AllPieces(deltas: seq<Delta>): seq<Piece> {
    if deltas == [] then [] else AllPieces(deltas[..|deltas| - 1]) + Pieces(deltas[|deltas| - 1].toolCalls)
  }

  /** What one call amounts to: its own pieces joined, whatever came between them. */
  function Whole(pieces: seq<Piece>, index: int): ToolCall {
    if pieces == [] then NO_CALL
    else
      var last := pieces[|pieces| - 1];
      var rest := Whole(pieces[..|pieces| - 1], index);
      if last.index == index then Join(rest, last.call) else rest
  }

  function Indices(pieces: seq<Piece>): set<int> {
    set i | 0 <= i < |pieces| :: pieces[i].index
  }

  function Calls(pieces: seq<Piece>): map<int, ToolCall> {
    map index | index in Indices(pieces) :: Whole(pieces, index)
  }

  function AllContent(deltas: seq<Delta>): string {
    if deltas == [] then ""
    else
      var last := deltas[|deltas| - 1].content;
      AllContent(deltas[..|deltas| - 1]) + (if last.Some? then last.value else "")
  }

  function AllFunction(deltas: seq<Delta>): Function {
    if deltas == [] then NO_FUNCTION
    else
      var last := deltas[|deltas| - 1].functionCall;
      var rest := AllFunction(deltas[..|deltas| - 1]);
      if last.Some? then AppendFunction(rest, last.value) else rest
  }

  lemma WholeAppends(pieces: seq<Piece>, piece: Piece, index: int)
    ensures Whole(pieces + [piece], index) ==
            if piece.index == index then Join(Whole(pieces, index), piece.call) else Whole(pieces, index)
  {
    assert (pieces + [piece])[..|pieces|] == pieces;
  }

  lemma {:induction false} WholeOfAbsent(pieces: seq<Piece>, index: int)
    requires index !in Indices(pieces)
    ensures Whole(pieces, index) == NO_CALL
  {
    if pieces != [] {
      var n := |pieces| - 1;
      assert pieces[n].index in Indices(pieces);
      forall i | 0 <= i < n ensures pieces[..n][i].index in Indices(pieces) {
        assert pieces[i].index in Indices(pieces);
      }
      WholeOfAbsent(pieces[..n], index);
    }
  }

  /** One more piece changes one call. */
  lemma CallsAppend(pieces: seq<Piece>, piece: Piece)
    ensures var calls := Calls(pieces);
      Calls(pieces + [piece]) ==
      calls[piece.index := Join(if piece.index in calls then calls[piece.index] else NO_CALL, piece.call)]
  {
    var longer := pieces + [piece];
    assert Indices(longer) == Indices(pieces) + {piece.index} by {
      assert longer[|pieces|] == piece;
      forall i | 0 <= i < |pieces| ensures longer[i].index in Indices(pieces) && pieces[i].index in Indices(longer) {
        assert longer[i] == pieces[i];
      }
    }
    forall index | index in Indices(longer) ensures true {
      WholeAppends(pieces, piece, index);
    }
    if piece.index !in Indices(pieces) {
      WholeOfAbsent(pieces, piece.index);
    }
  }

  ghost function LeastIndex(indices: set<int>): (least: int)
    requires indices != {}
    ensures least in indices && forall i :: i in indices ==> least <= i
  {
    LeastExists(indices);
    var least :| least in indices && forall i :: i in indices ==> least <= i;
    least
  }

  lemma LeastExists(indices: set<int>)
    requires indices != {}
    ensures exists least :: least in indices && forall i :: i in indices ==> least <= i
    decreases |indices|
  {
    assert exists one :: one in indices by {
      assert (forall one :: one !in indices) ==> indices == {};
    }
    var one :| one in indices;
    if indices != {one} {
      var rest := indices - {one};
      LeastExists(rest);
      var least :| least in rest && forall i :: i in rest ==> least <= i;
      assert forall i :: i in indices ==> i == one || i in rest;
      var smaller := if one < least then one else least;
      assert smaller in indices && forall i :: i in indices ==> smaller <= i;
    }
  }

  /** The calls in ascending order of their indices. */
  ghost function InOrder(calls: map<int, ToolCall>): seq<ToolCall>
    decreases |calls|
  {
    if calls == map[] then []
    else
      var least := LeastIndex(calls.Keys);
      [calls[least]] + InOrder(calls - {least})
  }

  ghost function MessageOf(content: string, calls: map<int, ToolCall>, does: Function): Message {
    Message(Some(Text(content)), if calls == map[] then None else Some(InOrder(calls)), if does == NO_FUNCTION then None else Some(does))
  }

  ghost function Streamed(deltas: seq<Delta>): Message {
    MessageOf(AllContent(deltas), Calls(AllPieces(deltas)), AllFunction(deltas))
  }

  // How the provider cuts a message up does not matter

  lemma {:induction false} WholeOfConcat(a: seq<Piece>, b: seq<Piece>, index: int)
    ensures Whole(a + b, index) == Join(Whole(a, index), Whole(b, index))
  {
    if b == [] {
      assert a + b == a;
      JoinIsAssociative(Whole(a, index), NO_CALL, NO_CALL);
    } else {
      var n := |b| - 1;
      assert (a + b)[..|a| + n] == a + b[..n];
      WholeOfConcat(a, b[..n], index);
      JoinIsAssociative(Whole(a, index), Whole(b[..n], index), b[n].call);
    }
  }

  /** Neighbouring pieces of different calls can change places. */
  lemma PiecesCommute(before: seq<Piece>, p: Piece, q: Piece, after: seq<Piece>)
    requires p.index != q.index
    ensures Calls(before + [p] + [q] + after) == Calls(before + [q] + [p] + after)
  {
    var pq, qp := before + [p] + [q] + after, before + [q] + [p] + after;
    assert Indices(pq) == Indices(qp) by {
      var n := |before|;
      assert pq[n] == qp[n + 1] && pq[n + 1] == qp[n];
      forall i | 0 <= i < |pq| ensures pq[i].index in Indices(qp) && qp[i].index in Indices(pq) {
        if i < n || i > n + 1 { assert pq[i] == qp[i]; }
      }
    }
    forall index | index in Indices(pq) ensures Whole(pq, index) == Whole(qp, index) {
      WholeAppends(before, p, index);
      WholeAppends(before + [p], q, index);
      WholeAppends(before, q, index);
      WholeAppends(before + [q], p, index);
      WholeOfConcat(before + [p] + [q], after, index);
      WholeOfConcat(before + [q] + [p], after, index);
    }
  }

  /** Cutting one piece in two, anywhere in its name or arguments, makes no difference. */
  lemma PieceCanBeCut(before: seq<Piece>, index: int, a: ToolCall, b: ToolCall, after: seq<Piece>)
    ensures Calls(before + [Piece(index, a)] + [Piece(index, b)] + after) == Calls(before + [Piece(index, Join(a, b))] + after)
  {
    var cut, whole := before + [Piece(index, a)] + [Piece(index, b)], before + [Piece(index, Join(a, b))];
    assert Indices(cut + after) == Indices(whole + after) by {
      var n := |before|;
      assert (cut + after)[n].index == index && (cut + after)[n + 1].index == index && (whole + after)[n].index == index;
      forall i | 0 <= i < |cut + after| ensures (cut + after)[i].index in Indices(whole + after) {
        if i < n { assert (cut + after)[i] == (whole + after)[i]; }
        if i > n + 1 { assert (cut + after)[i] == (whole + after)[i - 1]; }
      }
      forall i | 0 <= i < |whole + after| ensures (whole + after)[i].index in Indices(cut + after) {
        if i < n { assert (cut + after)[i] == (whole + after)[i]; }
        if i > n { assert (whole + after)[i] == (cut + after)[i + 1]; }
      }
    }
    forall i | i in Indices(cut + after) ensures Whole(cut + after, i) == Whole(whole + after, i) {
      WholeAppends(before, Piece(index, a), i);
      WholeAppends(before + [Piece(index, a)], Piece(index, b), i);
      WholeAppends(before, Piece(index, Join(a, b)), i);
      JoinIsAssociative(Whole(before, i), a, b);
      WholeOfConcat(cut, after, i);
      WholeOfConcat(whole, after, i);
    }
  }

  // Keys

  predicate Empty(content: Option<Content>) {
    content.None? || content == Some(Text("")) || content == Some(Parts([]))
  }

  predicate HasCalls(m: Message) {
    m.toolCalls.Some? && m.toolCalls.value != []
  }

  /** The public part a key is the digest of; a message with neither text nor tool calls has no key. */
  function Key(m: Message): Option<Message> {
    if Empty(m.content) && !HasCalls(m) then None
    else Some(if HasCalls(m) && Empty(m.content) then m.(content := None) else m)
  }

  /** Exactly which messages share a key: the same ones, up to how a turn of tool calls only spells its empty content. */
  lemma KeysEqualIff(a: Message, b: Message)
    requires Key(a).Some?
    ensures Key(a) == Key(b) <==>
      (&& a.toolCalls == b.toolCalls && a.functionCall == b.functionCall
       && (a.content == b.content || (HasCalls(a) && Empty(a.content) && Empty(b.content))))
  {
  }

  // Observing a response

  /** A chunk holds a whole message, a delta, or neither. */
  datatype Chunk = WholeMessage(message: Message) | Partial(delta: Delta) | Nothing

  function Deltas(chunks: seq<Chunk>): seq<Delta> {
    if chunks == [] then []
    else
      var last := chunks[|chunks| - 1];
      Deltas(chunks[..|chunks| - 1]) + (if last.Partial? then [last.delta] else [])
  }

  function WholeMessages(chunks: seq<Chunk>): seq<Message> {
    if chunks == [] then []
    else
      var last := chunks[|chunks| - 1];
      WholeMessages(chunks[..|chunks| - 1]) + (if last.WholeMessage? then [last.message] else [])
  }

  /** The messages that have a key, which are the ones a save keeps. */
  function Keyed(messages: seq<Message>): seq<Message> {
    if messages == [] then []
    else
      var last := messages[|messages| - 1];
      Keyed(messages[..|messages| - 1]) + (if Key(last).Some? then [last] else [])
  }

  /** What a response leaves behind: its whole messages, or what its deltas make up if it had none. */
  ghost function Saved(chunks: seq<Chunk>): seq<Message> {
    if WholeMessages(chunks) != [] then Keyed(WholeMessages(chunks)) else Keyed([Streamed(Deltas(chunks))])
  }

  lemma OneMore(chunks: seq<Chunk>, chunk: Chunk)
    ensures Deltas(chunks + [chunk]) == if chunk.Partial? then Deltas(chunks) + [chunk.delta] else Deltas(chunks)
    ensures WholeMessages(chunks + [chunk]) == if chunk.WholeMessage? then WholeMessages(chunks) + [chunk.message] else WholeMessages(chunks)
  {
    assert (chunks + [chunk])[..|chunks|] == chunks;
  }

  lemma KeyedOneMore(messages: seq<Message>, m: Message)
    ensures Keyed([m]) == if Key(m).Some? then [m] else []
    ensures Keyed(messages + [m]) == Keyed(messages) + Keyed([m])
  {
    var longer := messages + [m];
    assert [m][..0] == [] && longer[..|messages|] == messages && longer[|messages|] == m;
    assert Keyed(longer) == Keyed(messages) + if Key(m).Some? then [m] else [];
  }

  class ResponseCapture {
    var content: string
    var toolCalls: map<int, ToolCall>
    var functionCall: Function
    var complete: bool
    ghost var saved: seq<Message>

    constructor ()
      ensures Holds([])
    {
      content, toolCalls, functionCall, complete, saved := "", map[], NO_FUNCTION, false, [];
    }

    /** The fields are what the chunks seen so far amount to. */
    ghost predicate Holds(chunks: seq<Chunk>)
      reads this
    {
      Accumulated(Deltas(chunks)) && Completed(WholeMessages(chunks))
    }

    ghost predicate Completed(messages: seq<Message>)
      reads this
    {
      (complete <==> messages != []) && saved == Keyed(messages)
    }

    ghost predicate Accumulated(deltas: seq<Delta>)
      reads this
    {
      content == AllContent(deltas) && toolCalls == Calls(AllPieces(deltas)) && functionCall == AllFunction(deltas)
    }

    method ObserveToolCalls(fragments: seq<Fragment>, ghost pieces: seq<Piece>)
      requires toolCalls == Calls(pieces)
      modifies this`toolCalls
      ensures toolCalls == Calls(pieces + Pieces(fragments))
    {
      assert pieces + Pieces(fragments)[..0] == pieces;
      var position := 0;
      while position < |fragments|
        invariant 0 <= position <= |fragments|
        invariant toolCalls == Calls(pieces + Pieces(fragments)[..position])
      {
        var fragment := fragments[position];
        var index := if fragment.index.Some? then fragment.index.value else position;
        var target := if index in toolCalls then toolCalls[index] else NO_CALL;
        var id := if fragment.call.id.Some? then fragment.call.id else target.id;
        var kind := if fragment.call.kind.Some? then fragment.call.kind else target.kind;
        var does := JoinFunction(target.does, fragment.call.does);
        ghost var before := pieces + Pieces(fragments)[..position];
        CallsAppend(before, Resolve(fragment, position));
        assert pieces + Pieces(fragments)[..position + 1] == before + [Resolve(fragment, position)];
        toolCalls := toolCalls[index := ToolCall(id, kind, does)];
        position := position + 1;
      }
      assert Pieces(fragments)[..|fragments|] == Pieces(fragments);
    }

    method ObserveDelta(delta: Delta, ghost deltas: seq<Delta>)
      requires Accumulated(deltas)
      modifies this`content, this`toolCalls, this`functionCall
      ensures Accumulated(deltas + [delta])
    {
      assert (deltas + [delta])[..|deltas|] == deltas;
      if delta.content.Some? {
        content := content + delta.content.value;
      }
      ObserveToolCalls(delta.toolCalls, AllPieces(deltas));
      if delta.functionCall.Some? {
        functionCall := AppendFunction(functionCall, delta.functionCall.value);
      }
    }

    /** A message without a key is not saved. */
    ghost method Save(message: Message)
      modifies this`saved
      ensures saved == old(saved) + Keyed([message])
    {
      KeyedOneMore([], message);
      if Key(message).Some? {
        saved := saved + [message];
      }
    }

    method ObserveMessage(message: Message, ghost messages: seq<Message>)
      requires Completed(messages)
      modifies this`complete, this`saved
      ensures Completed(messages + [message])
    {
      KeyedOneMore(messages, message);
      Save(message);
      complete := true;
    }

    /** A whole message is saved at once; a delta is added to what has come so far. */
    method Observe(chunk: Chunk, ghost chunks: seq<Chunk>)
      requires Holds(chunks)
      modifies this
      ensures Holds(chunks + [chunk])
    {
      ghost var deltas, messages := Deltas(chunks), WholeMessages(chunks);
      if chunk.WholeMessage? {
        ObserveMessage(chunk.message, messages);
      } else if chunk.Partial? {
        ObserveDelta(chunk.delta, deltas);
      }
      OneMore(chunks, chunk);
    }

    /** The accumulated message is saved unless a whole one was. */
    method Finish(ghost chunks: seq<Chunk>)
      requires Holds(chunks)
      modifies this`saved
      ensures saved == Saved(chunks)
    {
      if complete {
        return;
      }
      Save(StreamMessage());
    }

    /** The message the deltas made up. */
    ghost function StreamMessage(): Message
      reads this
    {
      MessageOf(content, toolCalls, functionCall)
    }
  }

  /** What a client sends back for a message: the same calls, and an empty content in whatever spelling. */
  predicate Replays(replay: Message, m: Message) {
    && replay.toolCalls == m.toolCalls && replay.functionCall == m.functionCall
    && (replay.content == m.content || (Empty(replay.content) && Empty(m.content)))
  }

  /** However an answer was streamed and however the client spells it, the replay is recognised, when there is anything to recognise. */
  lemma StreamedReplayIsRecognised(deltas: seq<Delta>, replay: Message)
    requires Replays(replay, Streamed(deltas))
    ensures Key(replay) == Key(Streamed(deltas))
    ensures Key(replay).Some? <==> AllContent(deltas) != "" || AllPieces(deltas) != []
  {
    var pieces := AllPieces(deltas);
    var calls := Calls(pieces);
    if pieces != [] {
      assert pieces[0].index in Indices(pieces);
      assert pieces[0].index in calls;
      assert InOrder(calls) != [];
    } else {
      assert calls == map[];
    }
  }

  lemma {:induction false} KeyedHas(messages: seq<Message>, m: Message)
    ensures m in Keyed(messages) <==> m in messages && Key(m).Some?
  {
    if messages != [] {
      KeyedHas(messages[..|messages| - 1], m);
      assert messages == messages[..|messages| - 1] + [messages[|messages| - 1]];
    }
  }

  /** The message a client was given, in the form the response took. */
  ghost predicate WasGiven(chunks: seq<Chunk>, m: Message) {
    if WholeMessages(chunks) != [] then m in WholeMessages(chunks) else m == Streamed(Deltas(chunks))
  }

  /**
   What was given is what is saved: a replay of any message of the response has the key of a saved
   one, unless it has no key at all, and nothing else is saved.
   */
  lemma GivenIsSaved(chunks: seq<Chunk>, m: Message, replay: Message)
    requires Replays(replay, m)
    ensures m in Saved(chunks) <==> WasGiven(chunks, m) && Key(m).Some?
    ensures WasGiven(chunks, m) && Key(replay).Some? ==> m in Saved(chunks) && Key(replay) == Key(m)
  {
    KeyedHas(WholeMessages(chunks), m);
    KeyedHas([Streamed(Deltas(chunks))], m);
  }
}
