/**
  Streaming responses: the messages sent for a stream of chunks that may fail at any point, and the serializers that
  produce the chunks.
 */
module Streaming {
  import opened Wrappers

  datatype Failure =
    | NotAllowed(text: string)
    | ResourceNotFound(text: string)
    | WrongState(text: string)
    | ClientError(text: string)
    | Unexpected(text: string)
  {
    function Code(): nat {
      match this
      case NotAllowed(_) => 403
      case ResourceNotFound(_) => 404
      case WrongState(_) => 409
      case ClientError(_) => 400
      case Unexpected(_) => 500
    }
  }

  datatype Message = Start(status: nat) | Body(body: string, more: bool)

  function Bodies(chunks: seq<string>): seq<Message> {
    seq(|chunks|, i requires 0 <= i < |chunks| => Body(chunks[i], true))
  }

  /** The chunks of a stream, in order, and the failure that ends it, if any. A failure after a chunk is raised. */
  method StreamResponse(chunks: seq<string>, failure: Option<Failure>, status: nat)
    returns (sent: seq<Message>, raised: bool)
    ensures failure == None ==> sent == [Start(status)] + Bodies(chunks) + [Body("", false)] && !raised
    ensures failure.Some? && chunks == [] ==>
        sent == [Start(failure.value.Code()), Body(failure.value.text, false)] && !raised
    ensures failure.Some? && chunks != [] ==> sent == [Start(status)] + Bodies(chunks) && raised
  {
    sent, raised := [], false;
    var first := true;
    for i := 0 to |chunks|
      invariant first <==> i == 0
      invariant sent == if i == 0 then [] else [Start(status)] + Bodies(chunks[..i])
    {
      if first {
        first := false;
        sent := sent + [Start(status)];
      }
      sent := sent + [Body(chunks[i], true)];
      assert Bodies(chunks[..i + 1]) == Bodies(chunks[..i]) + [Body(chunks[i], true)];
    }
    assert chunks[..|chunks|] == chunks;
    if failure.Some? {
      if !first {
        return sent, true;
      }
      sent := sent + [Start(failure.value.Code())];
      sent := sent + [Body(failure.value.text, false)];
      return;
    }
    if first {
      sent := sent + [Start(status)];
    }
    sent := sent + [Body("", false)];
  }

  /** What a client makes of a trace: a start, then bodies; the last body closes it, and no other does. */
  ghost predicate WellFormed(sent: seq<Message>, closed: bool) {
    && sent != [] && sent[0].Start?
    && (forall i :: 1 <= i < |sent| ==> sent[i].Body?)
    && (forall i :: 1 <= i < |sent| - 1 ==> sent[i].more)
    && (if |sent| == 1 then !closed else sent[|sent| - 1].more == !closed)
  }

  function Received(sent: seq<Message>): string {
    if sent == [] then ""
    else Received(sent[..|sent| - 1]) + if sent[|sent| - 1].Body? then sent[|sent| - 1].body else ""
  }

  function Joined(chunks: seq<string>): string {
    if chunks == [] then "" else Joined(chunks[..|chunks| - 1]) + chunks[|chunks| - 1]
  }

  lemma {:induction false} ReceivedBodies(status: nat, chunks: seq<string>)
    ensures Received([Start(status)] + Bodies(chunks)) == Joined(chunks)
  {
    if chunks == [] {
      assert ([Start(status)] + Bodies(chunks))[..0] == [];
    } else {
      var front := chunks[..|chunks| - 1];
      ReceivedBodies(status, front);
      assert ([Start(status)] + Bodies(chunks))[..|chunks|] == [Start(status)] + Bodies(front);
    }
  }

  /** Every response starts once, sends the chunks in order, and is closed unless the failure came after a chunk; an
      early failure arrives as its own status and text. */
  method Respond(chunks: seq<string>, failure: Option<Failure>, status: nat) returns (sent: seq<Message>, raised: bool)
    ensures WellFormed(sent, !raised)
    ensures raised <==> failure.Some? && chunks != []
    ensures sent[0].status == if failure.Some? && chunks == [] then
                                match failure.value
                                case NotAllowed(_) => 403
                                case ResourceNotFound(_) => 404
                                case WrongState(_) => 409
                                case ClientError(_) => 400
                                case Unexpected(_) => 500
                              else status
    ensures Received(sent) == if failure.Some? && chunks == [] then failure.value.text else Joined(chunks)
  {
    sent, raised := StreamResponse(chunks, failure, status);
    ReceivedBodies(status, chunks);
    if failure == None {
      assert sent[..|sent| - 1] == [Start(status)] + Bodies(chunks);
    } else if chunks == [] {
      assert sent[..1] == [sent[0]] && [sent[0]][..0] == [];
    }
  }

  // ----- serializers: the chunks produced while iterating over items, and whether the iteration failed

  datatype Format = Json | NdJson | Csv

  function FormatFor(accept: string): Format {
    if accept in ["application/x-ndjson", "application/ndjson"] then NdJson
    else if accept == "application/json" then Json
    else if accept == "text/csv" then Csv
    else Json
  }

  /** `items` are the dumped items; the closing bracket is only written when the iteration ends well. */
  method Serialize(format: Format, items: seq<string>, failed: bool) returns (chunks: seq<string>)
    ensures Joined(chunks) == Text(format, items, failed)
    ensures chunks == [] <==> !format.Json? && items == []
  {
    chunks := if format.Json? then ["["] else [];
    Opening(format);
    var flag := false;
    for i := 0 to |items|
      invariant flag <==> i > 0
      invariant Joined(chunks) == Text(format, items[..i], true)
      invariant chunks == [] <==> !format.Json? && i == 0
    {
      var pre := if format.Json? && flag then "," else "";
      var post := if format.Json? then "" else "\n";
      NextItem(format, items[..i], items[i]);
      NextChunk(chunks, pre + items[i] + post);
      chunks := chunks + [pre + items[i] + post];
      flag := true;
      assert items[..i + 1] == items[..i] + [items[i]];
    }
    assert items[..|items|] == items;
    if format.Json? && !failed {
      NextChunk(chunks, "]");
      chunks := chunks + ["]"];
    }
  }

  lemma Opening(format: Format)
    ensures Joined(if format.Json? then ["["] else []) == Text(format, [], true)
  {
    assert ["["][..0] == [];
  }

  lemma NextChunk(chunks: seq<string>, chunk: string)
    ensures Joined(chunks + [chunk]) == Joined(chunks) + chunk
  {
    assert (chunks + [chunk])[..|chunks|] == chunks;
  }

  lemma NextItem(format: Format, items: seq<string>, item: string)
    ensures Text(format, items + [item], true)
         == Text(format, items,
             true) + ((if format.Json? && items != [] then "," else "") + item + if format.Json? then "" else "\n")
  {
    assert (items + [item])[..|items|] == items;
    if format.Json? {
      assert Commas(items + [item]) == Commas(items) + if items == [] then item else "," + item;
      assert (if items != [] then "," else "") + item + "" == if items == [] then item else "," + item;
    } else {
      assert "" + item + "\n" == item + "\n";
    }
  }

  function Commas(items: seq<string>): string {
    if items == [] then ""
    else if |items| == 1 then items[0]
    else Commas(items[..|items| - 1]) + "," + items[|items| - 1]
  }

  function Lines(items: seq<string>): string {
    if items == [] then "" else Lines(items[..|items| - 1]) + items[|items| - 1] + "\n"
  }

  // ----- a client reads the items back

  /** The pieces between the occurrences of a separator. */
  function Split(text: string, separator: char): (pieces: seq<string>)
    ensures pieces != []
  {
    if text == "" then [""]
    else
      var front, last := Split(text[..|text| - 1], separator), text[|text| - 1];
      if last == separator then front + [""] else front[..|front| - 1] + [front[|front| - 1] + [last]]
  }

  /** More text without the separator goes to the last piece. */
  lemma {:induction false} SplitMore(text: string, more: string, separator: char)
    requires separator !in more
    ensures var front := Split(text, separator);
            Split(text + more, separator) == front[..|front| - 1] + [front[|front| - 1] + more]
  {
    var front := Split(text, separator);
    if more == "" {
      assert text + more == text && front[|front| - 1] + more == front[|front| - 1];
      assert front == front[..|front| - 1] + [front[|front| - 1]];
    } else {
      var some, last := more[..|more| - 1], more[|more| - 1];
      SplitMore(text, some, separator);
      assert (text + more)[..|text + more| - 1] == text + some;
      assert front[|front| - 1] + some + [last] == front[|front| - 1] + more;
      var pieces := front[..|front| - 1] + [front[|front| - 1] + some];
      assert pieces[..|pieces| - 1] == front[..|front| - 1];
    }
  }

  lemma SplitHere(text: string, separator: char)
    ensures Split(text + [separator], separator) == Split(text, separator) + [""]
  {
    assert (text + [separator])[..|text|] == text;
  }

  /** Dumped items hold no newline, so a client that splits at newlines gets exactly the items of a line format. */
  lemma {:induction false} LinesReadBack(items: seq<string>)
    requires forall item <- items :: '\n' !in item
    ensures Split(Lines(items), '\n') == items + [""]
  {
    if items == [] {
    } else {
      var front, last := items[..|items| - 1], items[|items| - 1];
      LinesReadBack(front);
      SplitMore(Lines(front), last, '\n');
      assert last in items && "" + last == last;
      assert (front + [""])[..|front|] == front && front + [last] == items;
      SplitHere(Lines(front) + last, '\n');
    }
  }

  lemma {:induction false} SplitOneMore(text: string, item: string, separator: char)
    requires separator !in item
    ensures Split(text + [separator] + item, separator) == Split(text, separator) + [item]
  {
    SplitHere(text, separator);
    SplitMore(text + [separator], item, separator);
    var pieces := Split(text, separator) + [""];
    assert pieces[..|pieces| - 1] == Split(text, separator) && "" + item == item;
  }

  /** And items without a comma come back from between the commas of a JSON array. */
  lemma {:induction false} CommasReadBack(items: seq<string>)
    requires items != [] && forall item <- items :: ',' !in item
    ensures Split(Commas(items), ',') == items
  {
    var front, last := items[..|items| - 1], items[|items| - 1];
    assert last in items && "" + last == last;
    if front == [] {
      SplitMore("", last, ',');
      assert "" + last == last && items == [last];
    } else {
      CommasReadBack(front);
      SplitOneMore(Commas(front), last, ',');
      assert front + [last] == items;
    }
  }

  function Text(format: Format, items: seq<string>, failed: bool): string {
    if !format.Json? then Lines(items) else if failed then "[" + Commas(items) else "[" + Commas(items) + "]"
  }

  /** The whole path. A failure while iterating becomes an error status only for the line formats and only before the
      first item: a JSON stream has sent its opening bracket, and with it status 200, before it asks for an item. */
  method StreamItems(accept: string, items: seq<string>, failure: Option<Failure>)
    returns (sent: seq<Message>, raised: bool)
    ensures WellFormed(sent, !raised)
    ensures var lines := accept in ["application/x-ndjson", "application/ndjson", "text/csv"];
            && (sent[0].status != 200 <==> failure.Some? && items == [] && lines)
            && (raised <==> failure.Some? && (items != [] || !lines))
            && (sent[0].status == 200 && lines ==> Received(sent) == Lines(items))
            && (sent[0].status == 200 && !lines ==>
                  Received(sent) == "[" + Commas(items) + if failure.Some? then "" else "]")
  {
    var chunks := Serialize(FormatFor(accept), items, failure.Some?);
    sent, raised := Respond(chunks, failure, 200);
  }
}
