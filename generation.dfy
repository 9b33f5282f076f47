/**
 * One submission of the form (`generateBio`): the result buffer and the
 * loading flag the page keeps, the request, and the loop that reads the
 * streamed response chunk by chunk, decodes each chunk, feeds it to the
 * event-stream parser and appends the `text` of every parsed event.
 *
 * The network, the UTF-8 decoder, the event-stream parser and `JSON.parse`
 * are parameters: `fetch` gives the response for a prompt, `decode` is the
 * decoder's result for one chunk, `feed` is one call of the parser (its
 * state in, its state and the events it emits out), and `parseText` is
 * `JSON.parse(data).text` — `None` when parsing throws, `Some(None)` when
 * there is no `text`, `Some(Some(t))` otherwise.
 */
module Generation {
  import opened Wrappers
  import PromptTemplate

  /** A piece of the response body as the reader delivers it. */
  type Chunk = seq<bv8>

  /** What the parser hands to the callback. */
  datatype Event =
    | ParsedEvent(name: Option<string>, id: Option<string>, data: string)
    | ReconnectInterval(value: int)

  /**
   * The response body as the reader delivers it: its chunks in order, then
   * either the end of the stream (`readError == None`) or a read that fails.
   */
  datatype Body = Body(chunks: seq<Chunk>, readError: Option<string>)

  datatype Response = Response(ok: bool, statusText: string, body: Option<Body>)

  /** How a submission ends: normally, by throwing, or by the early `return` on a missing body. */
  datatype Outcome = Completed | Threw(message: string) | ReturnedEarly

  /**
   * What the callback appends for one event: the parsed `text` of an
   * `event` event, `""` when it has none, and nothing for a reconnect
   * interval or a payload that is not JSON.
   */
  function Fragment(parseText: string -> Option<Option<string>>, e: Event): string {
    match e
    case ReconnectInterval(_) => ""
    case ParsedEvent(_, _, data) =>
      match parseText(data)
      case None => ""
      case Some(None) => ""
      case Some(Some(text)) => text
  }

  /** The fragments of a run of events, concatenated in order. */
  function Fragments(parseText: string -> Option<Option<string>>, events: seq<Event>): string
    decreases |events|
  {
    if events == [] then "" else Fragment(parseText, events[0]) + Fragments(parseText, events[1..])
  }

  /** The fragments of two runs of events are those of the first, then those of the second. */
  lemma {:induction false} FragmentsAppend(parseText: string -> Option<Option<string>>, a: seq<Event>, b: seq<Event>)
    ensures Fragments(parseText, a + b) == Fragments(parseText, a) + Fragments(parseText, b)
    decreases |a|
  {
    if a != [] {
      assert (a + b)[1..] == a[1..] + b;
      FragmentsAppend(parseText, a[1..], b);
    } else {
      assert a + b == b;
    }
  }

  /**
   * A reconnect interval, a payload that is not JSON and a payload without
   * `text` leave the buffer as if the event had never come.
   */
  lemma SilentEventAddsNothing(parseText: string -> Option<Option<string>>, a: seq<Event>, e: Event, b: seq<Event>)
    requires e.ReconnectInterval? || parseText(e.data).None? || parseText(e.data) == Some(None)
    ensures Fragments(parseText, a + [e] + b) == Fragments(parseText, a + b)
  {
    assert Fragments(parseText, [e]) == "" by {
      assert [e][1..] == [];
    }
    FragmentsAppend(parseText, a, [e]);
    assert Fragments(parseText, a + [e]) == Fragments(parseText, a);
    FragmentsAppend(parseText, a + [e], b);
    FragmentsAppend(parseText, a, b);
  }

  /** Strings joined in order. */
  function Concat(texts: seq<string>): string
    decreases |texts|
  {
    if texts == [] then "" else texts[0] + Concat(texts[1..])
  }

  /**
   * When every event is an `event` event whose payload carries a `text`,
   * the fragments are exactly those texts, concatenated in order.
   */
  lemma {:induction false} TextsConcatenateInOrder(parseText: string -> Option<Option<string>>,
                                                   events: seq<Event>, texts: seq<string>)
    requires |events| == |texts|
    requires forall i :: 0 <= i < |events| ==>
      events[i].ParsedEvent? && parseText(events[i].data) == Some(Some(texts[i]))
    ensures Fragments(parseText, events) == Concat(texts)
    decreases |events|
  {
    if events != [] {
      TextsConcatenateInOrder(parseText, events[1..], texts[1..]);
    }
  }

  /** The events a parser in `state` emits while it is fed `texts` one after the other, and its state after. */
  function FeedAll<S>(feed: (S, string) -> (S, seq<Event>), state: S, texts: seq<string>): (S, seq<Event>)
    decreases |texts|
  {
    if texts == [] then (state, [])
    else
      var (next, events) := feed(state, texts[0]);
      var (last, more) := FeedAll(feed, next, texts[1..]);
      (last, events + more)
  }

  /** Feeding two runs of texts is feeding the first, then the second from where the first left the parser. */
  lemma {:induction false} FeedAllAppend<S>(feed: (S, string) -> (S, seq<Event>), state: S, t1: seq<string>, t2: seq<string>)
    ensures FeedAll(feed, state, t1 + t2).0 == FeedAll(feed, FeedAll(feed, state, t1).0, t2).0
    ensures FeedAll(feed, state, t1 + t2).1 == FeedAll(feed, state, t1).1 + FeedAll(feed, FeedAll(feed, state, t1).0, t2).1
    decreases |t1|
  {
    if t1 == [] {
      assert t1 + t2 == t2;
    } else {
      assert (t1 + t2)[1..] == t1[1..] + t2;
      FeedAllAppend(feed, feed(state, t1[0]).0, t1[1..], t2);
    }
  }

  /** Each chunk decoded on its own, in order (the decoder is not told to keep a partial character). */
  function ChunkTexts(decode: Chunk -> string, chunks: seq<Chunk>): (texts: seq<string>)
    ensures |texts| == |chunks|
    ensures forall i :: 0 <= i < |chunks| ==> texts[i] == decode(chunks[i])
    decreases |chunks|
  {
    if chunks == [] then [] else [decode(chunks[0])] + ChunkTexts(decode, chunks[1..])
  }

  /**
   * The texts the read loop feeds to the parser: every chunk decoded, then
   * the decoding of the final read's missing value, which is "", unless
   * that read fails.
   */
  function FedTexts(decode: Chunk -> string, body: Body): seq<string> {
    ChunkTexts(decode, body.chunks) + (if body.readError.None? then [""] else [])
  }

  /** The buffer once `texts` went through a fresh parser: the fragments of all its events, in order. */
  function Streamed<S>(feed: (S, string) -> (S, seq<Event>), init: S,
                       parseText: string -> Option<Option<string>>, texts: seq<string>): string
  {
    Fragments(parseText, FeedAll(feed, init, texts).1)
  }

  /**
   * The buffer only grows: what it holds after any prefix of the texts is
   * a prefix of what it holds after all of them.
   */
  lemma StreamedOnlyAppends<S>(feed: (S, string) -> (S, seq<Event>), init: S,
                               parseText: string -> Option<Option<string>>, texts: seq<string>, k: nat)
    requires k <= |texts|
    ensures Streamed(feed, init, parseText, texts[..k]) <= Streamed(feed, init, parseText, texts)
  {
    assert texts == texts[..k] + texts[k..];
    FeedAllAppend(feed, init, texts[..k], texts[k..]);
    var first := FeedAll(feed, init, texts[..k]);
    FragmentsAppend(parseText, first.1, FeedAll(feed, first.0, texts[k..]).1);
  }

  /** Streaming one more text appends the fragments of the events it makes the parser emit. */
  lemma StreamedSnoc<S>(feed: (S, string) -> (S, seq<Event>), init: S,
                        parseText: string -> Option<Option<string>>, texts: seq<string>, text: string)
    ensures FeedAll(feed, init, texts + [text]).0 == feed(FeedAll(feed, init, texts).0, text).0
    ensures Streamed(feed, init, parseText, texts + [text])
         == Streamed(feed, init, parseText, texts) + Fragments(parseText, feed(FeedAll(feed, init, texts).0, text).1)
  {
    FeedAllAppend(feed, init, texts, [text]);
    var state := FeedAll(feed, init, texts).0;
    assert [text][1..] == [];
    assert FeedAll(feed, state, [text]) == (feed(state, text).0, feed(state, text).1 + []);
    assert feed(state, text).1 + [] == feed(state, text).1;
    FragmentsAppend(parseText, FeedAll(feed, init, texts).1, feed(state, text).1);
  }

  /** The page's state for generated summaries. */
  class Page {
    /** `generatedBios`: the text received so far for the latest submission. */
    var buffer: string
    /** `loading`: a submission is under way (the submit button is disabled). */
    var loading: bool

    constructor ()
      ensures buffer == "" && !loading
    {
      buffer := "";
      loading := false;
    }

    /** `onParseGPT`: appends the fragment of one event; a payload that is not JSON is only logged. */
    method OnParse(parseText: string -> Option<Option<string>>, e: Event)
      modifies this`buffer
      ensures buffer == old(buffer) + Fragment(parseText, e)
    {
      if e.ParsedEvent? {
        var parsed := parseText(e.data);
        match parsed {
          case None =>
          case Some(text) =>
            var t := if text.Some? then text.value else "";
            buffer := buffer + t;
        }
      }
    }

    /** The parser calling `onParseGPT` on each event it emits, in order. */
    method Dispatch(parseText: string -> Option<Option<string>>, events: seq<Event>)
      modifies this`buffer
      ensures buffer == old(buffer) + Fragments(parseText, events)
    {
      var j := 0;
      while j < |events|
        invariant 0 <= j <= |events|
        invariant buffer == old(buffer) + Fragments(parseText, events[..j])
      {
        assert events[..j + 1] == events[..j] + [events[j]];
        FragmentsAppend(parseText, events[..j], [events[j]]);
        assert Fragments(parseText, [events[j]]) == Fragment(parseText, events[j]) + Fragments(parseText, []);
        OnParse(parseText, events[j]);
        j := j + 1;
      }
      assert events[..j] == events;
    }

    /**
     * `generateBio`: builds the prompt, clears the buffer and sets `loading`,
     * sends the request, and streams the response into the buffer. Only a
     * stream that ends normally clears `loading`; a failed status (throw), a
     * missing body (`return`) and a failed read (throw) leave it set.
     */
    method Generate<S>(bio: string, vibe: string, fetch: string -> Response,
                       decode: Chunk -> string, init: S, feed: (S, string) -> (S, seq<Event>),
                       parseText: string -> Option<Option<string>>)
      returns (outcome: Outcome)
      modifies this
      ensures var response := fetch(PromptTemplate.Prompt(bio, vibe));
        && (!response.ok ==>
              outcome == Threw(response.statusText) && buffer == "" && loading)
        && (response.ok && response.body.None? ==>
              outcome == ReturnedEarly && buffer == "" && loading)
        && (response.ok && response.body.Some? ==>
              var body := response.body.value;
              buffer == Streamed(feed, init, parseText, FedTexts(decode, body)) &&
              (body.readError.None? ==> outcome == Completed) &&
              (body.readError.Some? ==> outcome == Threw(body.readError.value)))
      ensures loading <==> outcome != Completed
    {
      var prompt := PromptTemplate.Prompt(bio, vibe);
      buffer := "";
      loading := true;

      var response := fetch(prompt);
      if !response.ok {
        return Threw(response.statusText);
      }
      if response.body.None? {
        return ReturnedEarly;
      }
      outcome := Consume(response.body.value, decode, init, feed, parseText);
      if outcome == Completed {
        loading := false;
      }
    }

    /**
     * The read loop of `generateBio`: reads until the
     * reader reports the end (or a read fails, which throws), feeding each
     * decoded chunk to one parser created for this submission.
     */
    method Consume<S>(body: Body, decode: Chunk -> string, init: S, feed: (S, string) -> (S, seq<Event>),
                      parseText: string -> Option<Option<string>>)
      returns (outcome: Outcome)
      modifies this`buffer
      ensures buffer == old(buffer) + Streamed(feed, init, parseText, FedTexts(decode, body))
      ensures body.readError.None? ==> outcome == Completed
      ensures body.readError.Some? ==> outcome == Threw(body.readError.value)
    {
      var state := init;
      ghost var fed: seq<string> := [];
      var i := 0;
      var done := false;
      while !done
        invariant 0 <= i <= |body.chunks|
        invariant fed == FedPrefix(decode, body, i, done)
        invariant done ==> i == |body.chunks| && body.readError.None?
        invariant state == FeedAll(feed, init, fed).0
        invariant buffer == old(buffer) + Streamed(feed, init, parseText, fed)
        decreases |body.chunks| - i, if done then 0 else 1
      {
        // `reader.read()`: the next chunk, the end of the stream, or a failed read
        if i == |body.chunks| && body.readError.Some? {
          FedPrefixAll(decode, body);
          return Threw(body.readError.value);
        }
        var value: Option<Chunk>;
        var doneReading: bool;
        if i < |body.chunks| {
          value, doneReading := Some(body.chunks[i]), false;
        } else {
          value, doneReading := None, true;
        }
        var text := if value.Some? then decode(value.value) else "";
        var read := if doneReading then i else i + 1;
        assert fed + [text] == FedPrefix(decode, body, read, doneReading) by {
          FedPrefixNext(decode, body, i);
        }
        i, done := read, doneReading;

        state := FeedParser(feed, init, parseText, state, old(buffer), fed, text);
        fed := fed + [text];
      }
      FedPrefixAll(decode, body);
      outcome := Completed;
    }

    /**
     * `parser.feed(text)` on the parser that has already been fed `fed`,
     * with `onParseGPT` called on every event it emits: the buffer goes on
     * from the fragments of `fed` to those of `fed + [text]`.
     */
    method FeedParser<S>(feed: (S, string) -> (S, seq<Event>), init: S,
                         parseText: string -> Option<Option<string>>,
                         state: S, ghost base: string, ghost fed: seq<string>, text: string)
      returns (next: S)
      requires state == FeedAll(feed, init, fed).0
      requires buffer == base + Streamed(feed, init, parseText, fed)
      modifies this`buffer
      ensures next == FeedAll(feed, init, fed + [text]).0
      ensures buffer == base + Streamed(feed, init, parseText, fed + [text])
    {
      StreamedSnoc(feed, init, parseText, fed, text);
      var step := feed(state, text);
      Dispatch(parseText, step.1);
      next := step.0;
    }
  }

  /** The texts fed once `i` chunks were read, and the final empty read if `done`. */
  function FedPrefix(decode: Chunk -> string, body: Body, i: nat, done: bool): seq<string>
    requires i <= |body.chunks|
  {
    ChunkTexts(decode, body.chunks[..i]) + (if done then [""] else [])
  }

  lemma FedPrefixNext(decode: Chunk -> string, body: Body, i: nat)
    requires i <= |body.chunks|
    ensures i < |body.chunks| ==>
      FedPrefix(decode, body, i + 1, false) == FedPrefix(decode, body, i, false) + [decode(body.chunks[i])]
    ensures FedPrefix(decode, body, i, true) == FedPrefix(decode, body, i, false) + [""]
  {
    if i < |body.chunks| {
      assert body.chunks[..i + 1] == body.chunks[..i] + [body.chunks[i]];
      ChunkTextsSnoc(decode, body.chunks[..i], body.chunks[i]);
    }
  }

  lemma FedPrefixAll(decode: Chunk -> string, body: Body)
    ensures body.readError.None? ==> FedPrefix(decode, body, |body.chunks|, true) == FedTexts(decode, body)
    ensures body.readError.Some? ==> FedPrefix(decode, body, |body.chunks|, false) == FedTexts(decode, body)
  {
    assert body.chunks[..|body.chunks|] == body.chunks;
  }

  lemma ChunkTextsSnoc(decode: Chunk -> string, chunks: seq<Chunk>, c: Chunk)
    ensures ChunkTexts(decode, chunks + [c]) == ChunkTexts(decode, chunks) + [decode(c)]
  {
  }
}
