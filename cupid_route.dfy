/**
 * The question route: the normaliser that turns the client's untyped
 * conversation into messages, and the order of the route's two guards.
 */
module CupidRoute {

  import opened Wrappers
  import opened Strings
  import opened JsValues
  import opened ConversationTypes

  const MissingQuestionError := "Provide a question to ask Cupid."
  const MissingConversationError := "Include the parsed conversation for context."
  const ThinkingTooHardError := "Cupid is thinking too hard right now. Try again shortly."

  /** `isSender`: the value is one of the two wire names. */
  predicate IsSender(v: Value): (b: bool)
    ensures b <==> v == Str("personA") || v == Str("personB")
  {
    SenderOf(v).Some?
  }

  /** An entry the normaliser keeps: a non-null object with a string `text` and a valid `sender`. */
  predicate IsWellFormedEntry(entry: Value)
  {
    IsObjectType(entry) && !entry.Null? && Get(entry, "text").Str? && IsSender(Get(entry, "sender"))
  }

  /**
   * The message built from the entry at input position `index`: its own `id`
   * unless that is null or undefined, else the position in decimal; its
   * sender and text; nothing else.
   */
  function EntryToMessage(entry: Value, index: nat): (m: ConversationMessage)
    requires IsWellFormedEntry(entry)
    ensures IsNullish(Get(entry, "id")) ==>
      && m.id.Str? && m.id.s != [] && AllDigits(m.id.s) && DecimalValue(m.id.s) == index
      && (m.id.s[0] == '0' ==> index == 0 && m.id.s == "0")
    ensures !IsNullish(Get(entry, "id")) ==> m.id == Get(entry, "id")
    ensures Str(SenderName(m.sender)) == Get(entry, "sender") && Str(m.text) == Get(entry, "text")
    ensures m.timestamp.None?
  {
    var id := Get(entry, "id");
    DecimalRoundTrip(index);
    ConversationMessage(
      if IsNullish(id) then Str(NatToDecimal(index)) else id,
      SenderOf(Get(entry, "sender")).value,
      Get(entry, "text").s,
      None)
  }

  /** The `map` then `filter` over the entries, each mapped with its own input index. */
  function NormalizeEntries(entries: seq<Value>): (r: seq<ConversationMessage>)
    ensures |r| <= |entries|
  {
    if entries == [] then []
    else
      var n := |entries| - 1;
      NormalizeEntries(entries[..n]) + (if IsWellFormedEntry(entries[n]) then [EntryToMessage(entries[n], n)] else [])
  }

  /** The input positions of the kept entries, in increasing order. */
  function KeptIndices(entries: seq<Value>): (ks: seq<nat>)
    ensures forall j :: 0 <= j < |ks| ==> ks[j] < |entries| && IsWellFormedEntry(entries[ks[j]])
  {
    if entries == [] then []
    else
      var n := |entries| - 1;
      KeptIndices(entries[..n]) + (if IsWellFormedEntry(entries[n]) then [n] else [])
  }

  /** The kept positions are exactly the well-formed entries, each once and in order. */
  lemma {:induction false} KeptIndicesAreTheFilter(entries: seq<Value>)
    ensures forall j, j' :: 0 <= j < j' < |KeptIndices(entries)| ==> KeptIndices(entries)[j] < KeptIndices(entries)[j']
    ensures forall i :: 0 <= i < |entries| ==> (i in KeptIndices(entries) <==> IsWellFormedEntry(entries[i]))
  {
    if entries != [] {
      var n := |entries| - 1;
      var prefix := entries[..n];
      KeptIndicesAreTheFilter(prefix);
      assert forall i :: 0 <= i < n ==> prefix[i] == entries[i];
    }
  }

  /** The normalised conversation is the kept entries, each built with its input position. */
  lemma {:induction false} NormalizeIsKeptEntries(entries: seq<Value>)
    ensures |NormalizeEntries(entries)| == |KeptIndices(entries)|
    ensures forall j :: 0 <= j < |KeptIndices(entries)| ==>
      NormalizeEntries(entries)[j] == EntryToMessage(entries[KeptIndices(entries)[j]], KeptIndices(entries)[j])
  {
    if entries != [] {
      var n := |entries| - 1;
      var prefix := entries[..n];
      NormalizeIsKeptEntries(prefix);
      assert forall i :: 0 <= i < n ==> prefix[i] == entries[i];
    }
  }

  /**
   * `normalizeConversation`: a non-array gives no messages; an array gives,
   * for each well-formed entry in input order, its message with the id
   * defaulted to the entry's input position.
   */
  function NormalizeConversation(conversation: Value): (r: seq<ConversationMessage>)
    ensures !conversation.Arr? ==> r == []
    ensures conversation.Arr? ==>
      var entries := conversation.items;
      var kept := KeptIndices(entries);
      && |r| == |kept| <= |entries|
      && (forall j :: 0 <= j < |kept| ==> r[j] == EntryToMessage(entries[kept[j]], kept[j]))
      && (forall j, j' :: 0 <= j < j' < |kept| ==> kept[j] < kept[j'])
      && (forall i :: 0 <= i < |entries| ==> (i in kept <==> IsWellFormedEntry(entries[i])))
  {
    if !conversation.Arr? then []
    else
      KeptIndicesAreTheFilter(conversation.items);
      NormalizeIsKeptEntries(conversation.items);
      NormalizeEntries(conversation.items)
  }

  /**
   * What the normaliser keeps of one entry: a missing or null id becomes the
   * input position in decimal, any other id is copied whatever its type, the
   * sender and text are copied, and no timestamp survives.
   */
  lemma KeptMessageFields(conversation: Value, j: nat)
    requires conversation.Arr? && j < |NormalizeConversation(conversation)|
    ensures var i := KeptIndices(conversation.items)[j];
      var entry := conversation.items[i];
      var m := NormalizeConversation(conversation)[j];
      && (IsNullish(Get(entry, "id")) ==> m.id == Str(NatToDecimal(i)))
      && (!IsNullish(Get(entry, "id")) ==> m.id == Get(entry, "id"))
      && Str(SenderName(m.sender)) == Get(entry, "sender")
      && Str(m.text) == Get(entry, "text")
      && m.timestamp == None
  {
  }

  /**
   * The defaulted id counts positions in the input, not in the output: after
   * a dropped entry, the first kept message without an id gets `"1"`.
   */
  lemma DefaultIdIsInputIndex(dropped: Value, text: string)
    requires !IsWellFormedEntry(dropped)
    ensures NormalizeConversation(Arr([dropped, Obj(map["sender" := Str("personA"), "text" := Str(text)])]))
         == [ConversationMessage(Str("1"), PersonA, text, None)]
  {
    var kept := Obj(map["sender" := Str("personA"), "text" := Str(text)]);
    var entries := [dropped, kept];
    assert entries[..1] == [dropped];
    assert [dropped][..0] == [];
    assert NormalizeEntries(entries) == [EntryToMessage(kept, 1)];
  }

  /** `typeof body?.question === 'string' ? body.question.trim() : ''`. */
  function Question(body: Value): (q: string)
    ensures !Get(body, "question").Str? ==> q == ""
    ensures Get(body, "question").Str? ==> (q == "" <==> AllWhitespace(Get(body, "question").s))
    ensures q != "" ==> !IsJsWhitespace(q[0]) && !IsJsWhitespace(q[|q| - 1])
  {
    var q := Get(body, "question");
    if q.Str? then Trim(q.s) else ""
  }

  /** What the route does: an error status with its message, or the call to the question answerer. */
  datatype CupidResponse =
    | CupidRejected(status: nat, error: string)
    | AskCupid(conversation: seq<ConversationMessage>, question: string)

  /**
   * The route with `body` the result of `request.json()` (None where it
   * throws): the question is checked before the conversation, and both
   * failures answer 400.
   */
  function Post(body: Option<Value>): (r: CupidResponse)
    ensures body.None? ==> r == CupidRejected(500, ThinkingTooHardError)
    ensures body.Some? ==>
      var question := Question(body.value);
      var conversation := NormalizeConversation(Get(body.value, "conversation"));
      && (r == CupidRejected(400, MissingQuestionError) <==> question == "")
      && (r == CupidRejected(400, MissingConversationError) <==> question != "" && conversation == [])
      && (r.AskCupid? <==> question != "" && conversation != [])
      && (r.AskCupid? ==> r.conversation == conversation && r.question == question)
    ensures r.AskCupid? ==>
      r.question != [] && !IsJsWhitespace(r.question[0]) && !IsJsWhitespace(r.question[|r.question| - 1])
  {
    match body
    case None => CupidRejected(500, ThinkingTooHardError)
    case Some(b) =>
      var question := Question(b);
      var conversation := NormalizeConversation(Get(b, "conversation"));
      if question == "" then CupidRejected(400, MissingQuestionError)
      else if |conversation| == 0 then CupidRejected(400, MissingConversationError)
      else AskCupid(conversation, question)
  }
}
